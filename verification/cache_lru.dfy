/** When the cache evicts the least recently used entry. */
module CacheLRU {
  import opened Wrappers
  import opened AuthTypes
  import opened IntrospectionCache
  import opened CacheRuns

  /** Which key an operation on the store uses, if it stores or hits one. */
  function Used(l: Limits, st: Store, op: Op): Option<Key> {
    match op
    case OpGet(key, now) => if Get(l, st, key, now).hit.Some? then Some(key) else None
    case OpPut(key, _) => if Disabled(l) then None else Some(key)
  }

  /** The number of the last operation of a run that used each key. */
  function LastUse(l: Limits, ops: seq<Op>): map<Key, nat> {
    if ops == [] then map[]
    else
      var n := |ops| - 1;
      var before := LastUse(l, ops[..n]);
      var used := Used(l, Run(l, ops[..n]).store, ops[n]);
      if used.Some? then before[used.value := n] else before
  }

  /** Every live key has been used. */
  lemma {:induction false} LiveKeysWereUsed(l: Limits, ops: seq<Op>)
    ensures forall k <- Run(l, ops).store.entries :: k in LastUse(l, ops)
  {
    if ops != [] {
      var n := |ops| - 1;
      LiveKeysWereUsed(l, ops[..n]);
      RunIsReplay(l, ops);
      RunIsReplay(l, ops[..n]);
      OnlyUsedAppear(l, Run(l, ops[..n]).store, ops[n]);
      hide Run;
    }
  }

  lemma OnlyUsedAppear(l: Limits, st: Store, op: Op)
    ensures forall k <- Operate(l, st, op).entries :: k in st.entries || Used(l, st, op) == Some(k)
  {
    EvictOnlyRemoves(st);
  }

  lemma {:induction false} EvictOnlyRemoves(st: Store)
    ensures forall k <- Evict(st).entries :: k in st.entries
    decreases |st.order|
  {
    if st.order != [] && st.order[0] !in st.entries {
      EvictOnlyRemoves(st.(order := st.order[1..]));
    }
  }

  /** If an eviction were due now, no live key would have gone unused for longer than the
      key it removes. */
  ghost predicate VictimIsLRU(l: Limits, ops: seq<Op>) {
    var st, last := Run(l, ops).store, LastUse(l, ops);
    |st.entries| >= l.maxSize && FirstLive(st) < |st.order| ==>
      Victim(st) in last && forall k <- st.entries :: k in last && last[Victim(st)] <= last[k]
  }

  // ---- one slot: always ----

  lemma SingleEntryIsLRU(l: Limits, ops: seq<Op>)
    requires !Disabled(l) && l.maxSize == 1
    ensures VictimIsLRU(l, ops)
  {
    RunConsistent(l, ops);
    LiveKeysWereUsed(l, ops);
    var st := Run(l, ops).store;
    hide Run, LastUse;
    if FirstLive(st) < |st.order| {
      var v := Victim(st);
      forall k | k in st.entries ensures k == v {
        TwoKeys(st.entries, k, v);
      }
    }
  }

  lemma TwoKeys<K, V>(m: map<K, V>, a: K, b: K)
    requires a in m && b in m && |m| <= 1
    ensures a == b
  {
    if a != b {
      RemovalSize(m, a);
      RemovalSize(m - {a}, b);
    }
  }

  // ---- more than one: not always ----

  function Name(i: nat): Key {
    seq(i, _ => 'a')
  }

  function Names(n: nat): seq<Key> {
    if n == 0 then [] else Names(n - 1) + [Name(n - 1)]
  }

  /** Storing n keys, one after the other. */
  function Fill(e: Entry, n: nat): seq<Op> {
    if n == 0 then [] else Fill(e, n - 1) + [OpPut(Name(n - 1), e)]
  }

  lemma {:induction false} NamesAre(n: nat)
    ensures |Names(n)| == n && forall i :: 0 <= i < n ==> Names(n)[i] == Name(i)
    ensures forall i :: i >= n ==> Name(i) !in Names(n)
  {
    if n > 0 {
      NamesAre(n - 1);
      forall i | i >= n ensures Name(i) != Name(n - 1) {
        assert |Name(i)| == i && |Name(n - 1)| == n - 1;
      }
    }
  }

  lemma OneMore(l: Limits, ops: seq<Op>, op: Op)
    ensures Run(l, ops + [op]) == After(l, Run(l, ops), op)
    ensures var used := Used(l, Run(l, ops).store, op);
            LastUse(l, ops + [op]) == if used.Some? then LastUse(l, ops)[used.value := |ops|] else LastUse(l, ops)
  {
    assert (ops + [op])[..|ops|] == ops;
    hide After, Used;
  }

  lemma {:induction false} Filled(l: Limits, e: Entry, n: nat)
    requires !Disabled(l) && n <= l.maxSize
    ensures var st := Run(l, Fill(e, n)).store;
            && st.order == Names(n) && |st.entries| == n
            && (forall k :: k in st.entries <==> k in Names(n))
            && (forall k <- st.entries :: st.entries[k] == e)
  {
    if n > 0 {
      var m := n - 1;
      Filled(l, e, m);
      NamesAre(m);
      var h := Run(l, Fill(e, m));
      OneMore(l, Fill(e, m), OpPut(Name(m), e));
      hide Run, LastUse, Used, Disabled;
      PutAppends(l, h, Name(m), e);
      AdditionSize(h.store.entries, Name(m), e);
      hide After;
    }
  }

  lemma PutIsUse(l: Limits, ops: seq<Op>, key: Key, e: Entry)
    requires !Disabled(l)
    ensures LastUse(l, ops + [OpPut(key, e)]) == LastUse(l, ops)[key := |ops|]
  {
    OneMore(l, ops, OpPut(key, e));
    hide Run, LastUse;
  }

  lemma {:induction false} FilledInTurn(l: Limits, e: Entry, n: nat)
    requires !Disabled(l)
    ensures |Fill(e, n)| == n
    ensures forall i :: 0 <= i < n ==> Name(i) in LastUse(l, Fill(e, n)) && LastUse(l, Fill(e, n))[Name(i)] == i
  {
    hide LastUse, Name;
    if n > 0 {
      var m := n - 1;
      FilledInTurn(l, e, m);
      PutIsUse(l, Fill(e, m), Name(m), e);
      assert Fill(e, n) == Fill(e, m) + [OpPut(Name(m), e)];
      hide Fill, Disabled;
      NamesAre(m);
      forall i | 0 <= i < m ensures Name(i) != Name(m) {
        assert Name(i) == Names(m)[i];
      }
    }
  }

  /** Fill the cache and look the first key up: it is still first in line. */
  lemma FirstInLastUsed(l: Limits, e: Entry)
    requires !Disabled(l) && l.maxSize >= 2
    ensures !VictimIsLRU(l, Fill(e, l.maxSize) + [OpGet(Name(0), e.expiresAt)])
  {
    var n: nat := l.maxSize;
    var op := OpGet(Name(0), e.expiresAt);
    Filled(l, e, n);
    FilledInTurn(l, e, n);
    NamesAre(n);
    OneMore(l, Fill(e, n), op);
    var st := Run(l, Fill(e, n)).store;
    assert Names(n)[0] == Name(0) && Names(n)[1] == Name(1) && |Name(0)| == 0 && |Name(1)| == 1;
    assert After(l, Run(l, Fill(e, n)), op).store == st && Used(l, st, op) == Some(Name(0));
    hide Run, LastUse, After, Used, Fill;
    assert Name(0) in st.entries && Name(1) in st.entries;
    assert Victim(st) == Name(0);
  }

  // ---- runs in which nothing is used twice ----

  /** Every use is the storing of a key that was not live. */
  predicate NoReuse(l: Limits, ops: seq<Op>) {
    forall n :: 0 <= n < |ops| ==>
      var st := Run(l, ops[..n]).store;
      var used := Used(l, st, ops[n]);
      used.Some? ==> used.value !in st.entries
  }

  /** Keys were last used in the order in which they were stored, all of them before now. */
  ghost predicate InOrder(h: History, last: map<Key, nat>, now: nat) {
    && (forall k <- h.store.entries :: k in h.born && k in last && h.born[k] < h.inserts && last[k] < now)
    && (forall j, k :: j in h.store.entries && k in h.store.entries && h.born[j] <= h.born[k] ==> last[j] <= last[k])
  }

  lemma {:induction false} UsesAreInOrder(l: Limits, ops: seq<Op>)
    requires !Disabled(l) && NoReuse(l, ops)
    ensures InOrder(Run(l, ops), LastUse(l, ops), |ops|)
  {
    if ops != [] {
      hide *;
      var n := |ops| - 1;
      NoReuseBefore(l, ops);
      UsesAreInOrder(l, ops[..n]);
      OneMore(l, ops[..n], ops[n]);
      assert ops == ops[..n] + [ops[n]] && |ops[..n]| == n;
      StepKeepsOrder(l, Run(l, ops[..n]), LastUse(l, ops[..n]), ops[n], n);
    }
  }

  lemma NoReuseBefore(l: Limits, ops: seq<Op>)
    requires NoReuse(l, ops) && ops != []
    ensures var n := |ops| - 1;
            var st := Run(l, ops[..n]).store;
            && NoReuse(l, ops[..n])
            && (Used(l, st, ops[n]).Some? ==> Used(l, st, ops[n]).value !in st.entries)
  {
    hide Run, Used;
    var n := |ops| - 1;
    assert forall m :: 0 <= m < n ==> ops[..n][m] == ops[m] && ops[..n][..m] == ops[..m];
  }

  lemma StepKeepsOrder(l: Limits, h: History, last: map<Key, nat>, op: Op, now: nat)
    requires !Disabled(l) && InOrder(h, last, now)
    requires var used := Used(l, h.store, op); used.Some? ==> used.value !in h.store.entries
    ensures var used := Used(l, h.store, op);
            InOrder(After(l, h, op), if used.Some? then last[used.value := now] else last, now + 1)
  {
    EvictOnlyRemoves(h.store);
    hide Evict, EvictionCost, FirstLive;
  }

  /** In a run without reuse and without storing a key over a stale slot of it, eviction
      is least-recently-used as it is first-in-first-out. */
  lemma WithoutReuseIsLRU(l: Limits, ops: seq<Op>)
    requires !Disabled(l) && NoReuse(l, ops) && NoStaleReinsertion(l, ops)
    ensures VictimIsLRU(l, ops)
  {
    UsesAreInOrder(l, ops);
    var st := Run(l, ops).store;
    if |st.entries| > 0 {
      EvictionIsFifo(l, ops);
    }
    hide Run, LastUse, NoReuse, NoStaleReinsertion;
  }

  /** Eviction is least-recently-used in every run exactly when the cache is off, so that
      nothing is ever evicted, or holds a single entry. */
  lemma AlwaysLRUIff(l: Limits)
    ensures (forall ops :: VictimIsLRU(l, ops)) <==> Disabled(l) || l.maxSize == 1
  {
    if Disabled(l) {
      forall ops ensures VictimIsLRU(l, ops) {
        DisabledStaysEmpty(l, ops);
      }
    } else if l.maxSize == 1 {
      forall ops ensures VictimIsLRU(l, ops) {
        SingleEntryIsLRU(l, ops);
      }
    } else {
      FirstInLastUsed(l, Entry(Claims("", "", [], None), None, 0));
    }
  }
}
