/** The time-limited, size-limited duplicate cache, against the plain log of its calls. */
module DedupeCache {
  type Key = string
  type Store = map<Key, real>

  /** The limits after the constructor has raised them to their minima. */
  datatype Limits = Limits(ttl: real, max: nat)

  function LimitsFor(ttlSeconds: int, maxEntries: int): (l: Limits)
    ensures if ttlSeconds >= 1 then l.ttl == ttlSeconds as real else l.ttl == 1.0
    ensures if maxEntries >= 128 then l.max == maxEntries else l.max == 128
  {
    Limits(if ttlSeconds > 1 then ttlSeconds as real else 1.0, if maxEntries > 128 then maxEntries else 128)
  }

  /** What clean-up leaves. */
  function Live(store: Store, now: real): Store {
    map k | k in store && store[k] > now :: store[k]
  }

  predicate IsOldest(store: Store, k: Key) {
    k in store && forall x :: x in store ==> store[k] <= store[x]
  }

  /** The answer given after clean-up. */
  predicate Duplicate(store: Store, key: Key, now: real) {
    (if key in Live(store, now) then store[key] else 0.0) > now
  }

  /** `store` becomes `store'` when `key` is remembered; among equally old entries any may go. */
  ghost predicate Remembers(l: Limits, store: Store, key: Key, now: real, store': Store) {
    var live := Live(store, now);
    if |live| >= l.max
    then exists gone :: IsOldest(live, gone) && store' == (live - {gone})[key := now + l.ttl]
    else store' == live[key := now + l.ttl]
  }

  lemma {:induction false} OldestExists(store: Store)
    requires store != map[]
    ensures exists k :: IsOldest(store, k)
  {
    var x :| x in store;
    var rest := store - {x};
    assert forall y :: y in store ==> y == x || y in rest;
    if rest == map[] {
      assert IsOldest(store, x);
    } else {
      assert |rest.Keys| < |store.Keys| by { assert rest.Keys == store.Keys - {x}; }
      OldestExists(rest);
      var k :| IsOldest(rest, k);
      if store[x] <= store[k] {
        assert IsOldest(store, x);
      } else {
        assert IsOldest(store, k);
      }
    }
  }

  class Cache {
    const limits: Limits
    var store: Store

    constructor (ttlSeconds: int, maxEntries: int)
      ensures limits == LimitsFor(ttlSeconds, maxEntries) && store == map[]
    {
      limits := LimitsFor(ttlSeconds, maxEntries);
      store := map[];
    }

    method Cleanup(now: real)
      modifies this`store
      ensures store == Live(old(store), now)
    {
      var expired := set k | k in store && store[k] <= now;
      store := store - expired;
    }

    method IsDuplicate(key: Key, now: real) returns (duplicate: bool)
      modifies this`store
      ensures store == Live(old(store), now)
      ensures duplicate == Duplicate(old(store), key, now)
    {
      Cleanup(now);
      var expires := if key in store then store[key] else 0.0;
      duplicate := expires > now;
    }

    method Remember(key: Key, now: real)
      requires limits.max > 0
      modifies this`store
      ensures Remembers(limits, old(store), key, now, store)
    {
      Cleanup(now);
      if |store| >= limits.max {
        OldestExists(store);
        var oldest :| IsOldest(store, oldest);
        store := store - {oldest};
      }
      store := store[key := now + limits.ttl];
    }
  }

  // ----- runs of calls

  datatype Call = Check(key: Key, now: real) | Remember(key: Key, now: real)

  ghost predicate Step(l: Limits, store: Store, c: Call, store': Store) {
    match c
    case Check(_, now) => store' == Live(store, now)
    case Remember(key, now) => Remembers(l, store, key, now, store')
  }

  /** `stores[i]` is the cache after the first `i` calls. */
  ghost predicate Run(l: Limits, calls: seq<Call>, stores: seq<Store>) {
    && |stores| == |calls| + 1 && stores[0] == map[]
    && forall i :: 0 <= i < |calls| ==> CallStep(l, calls, stores, i)
  }

  ghost predicate CallStep(l: Limits, calls: seq<Call>, stores: seq<Store>, i: nat)
    requires i < |calls| && |stores| == |calls| + 1
  {
    Step(l, stores[i], calls[i], stores[i + 1])
  }

  lemma RunStep(l: Limits, calls: seq<Call>, stores: seq<Store>, i: nat)
    requires Run(l, calls, stores) && i < |calls|
    ensures Step(l, stores[i], calls[i], stores[i + 1])
  {
    assert CallStep(l, calls, stores, i);
  }

  lemma LiveSize(store: Store, now: real)
    ensures |Live(store, now)| <= |store|
  {
    var live := Live(store, now);
    assert live.Keys <= store.Keys;
    SubsetSize(live.Keys, store.Keys);
  }

  lemma {:induction false} SubsetSize(a: set<Key>, b: set<Key>)
    requires a <= b
    ensures |a| <= |b|
  {
    if a != {} {
      var x :| x in a;
      SubsetSize(a - {x}, b - {x});
    }
  }

  lemma PutSize(m: Store, k: Key, e: real)
    ensures |m[k := e]| <= |m| + 1
  {
    assert m[k := e].Keys == m.Keys + {k};
  }

  lemma ReplaceSize(m: Store, gone: Key, k: Key, e: real)
    requires gone in m
    ensures |(m - {gone})[k := e]| <= |m|
  {
    assert (m - {gone}).Keys == m.Keys - {gone};
    PutSize(m - {gone}, k, e);
  }

  lemma RememberSize(l: Limits, store: Store, key: Key, now: real, store': Store)
    requires l.max > 0 && |store| <= l.max && Remembers(l, store, key, now, store')
    ensures |store'| <= l.max
  {
    var live, e := Live(store, now), now + l.ttl;
    LiveSize(store, now);
    if |live| >= l.max {
      var gone :| IsOldest(live, gone) && store' == (live - {gone})[key := e];
      ReplaceSize(live, gone, key, e);
    } else {
      PutSize(live, key, e);
    }
  }

  lemma StepSize(l: Limits, store: Store, c: Call, store': Store)
    requires l.max > 0 && |store| <= l.max && Step(l, store, c, store')
    ensures |store'| <= l.max
  {
    match c
    case Check(_, now) => LiveSize(store, now);
    case Remember(key, now) => RememberSize(l, store, key, now, store');
  }

  /** The cache never exceeds its capacity, whatever the clock does. */
  lemma {:induction false} CapacityHolds(l: Limits, calls: seq<Call>, stores: seq<Store>, n: nat)
    requires l.max > 0 && Run(l, calls, stores) && n <= |calls|
    ensures |stores[n]| <= l.max
  {
    if n > 0 {
      CapacityHolds(l, calls, stores, n - 1);
      RunStep(l, calls, stores, n - 1);
      StepSize(l, stores[n - 1], calls[n - 1], stores[n]);
    }
  }

  /** Every entry stands for a remember call of that key, one lifetime before its expiry. */
  lemma {:induction false} EntryHasCall(l: Limits, calls: seq<Call>, stores: seq<Store>, n: nat, k: Key)
    returns (i: nat)
    requires Run(l, calls, stores) && n <= |calls| && k in stores[n]
    ensures i < n && calls[i].Remember? && calls[i].key == k && stores[n][k] == calls[i].now + l.ttl
  {
    RunStep(l, calls, stores, n - 1);
    if calls[n - 1].Remember? && calls[n - 1].key == k {
      i := n - 1;
    } else {
      i := EntryHasCall(l, calls, stores, n - 1, k);
    }
  }

  /** A positive answer means the key was remembered within its lifetime. */
  lemma DuplicateWasRemembered(l: Limits, calls: seq<Call>, stores: seq<Store>, n: nat, key: Key, now: real)
    returns (i: nat)
    requires Run(l, calls, stores) && n <= |calls| && now >= 0.0 && Duplicate(stores[n], key, now)
    ensures i < n && calls[i].Remember? && calls[i].key == key && now < calls[i].now + l.ttl
  {
    i := EntryHasCall(l, calls, stores, n, key);
  }

  // ----- retention, whatever the order of the clock readings

  /**
   The remember calls before `n` that can push call `i` out of the cache: those made after it,
   and those made before it whose clock reading was not older.
   */
  function RivalCount(calls: seq<Call>, i: nat, n: nat): nat
    requires i < |calls| && n <= |calls|
  {
    if n == 0 then 0
    else
      var c, m := calls[n - 1], n - 1;
      RivalCount(calls, i, m) + if c.Remember? && m != i && (m > i || c.now >= calls[i].now) then 1 else 0
  }

  /** Call `i` is the last before `n` that remembers its key. */
  ghost predicate IsLast(calls: seq<Call>, i: nat, n: nat) {
    && i < n <= |calls| && calls[i].Remember?
    && forall m :: i < m < n && calls[m].Remember? ==> calls[m].key != calls[i].key
  }

  /** No call from after `i` up to `n` was made at or after the expiry of call `i`. */
  ghost predicate Alive(l: Limits, calls: seq<Call>, i: nat, n: nat)
    requires i < |calls| && n <= |calls|
  {
    forall m :: i < m < n ==> calls[m].now < calls[i].now + l.ttl
  }

  /** The other entries that expire no earlier than `e`. */
  function Rivals(store: Store, k: Key, e: real): set<Key> {
    set x | x in store && x != k && store[x] >= e
  }

  lemma LiveRivals(store: Store, k: Key, e: real, now: real)
    ensures |Rivals(Live(store, now), k, e)| <= |Rivals(store, k, e)|
  {
    SubsetSize(Rivals(Live(store, now), k, e), Rivals(store, k, e));
  }

  lemma RememberRivals(l: Limits, store: Store, k: Key, e: real, key: Key, now: real, store': Store)
    requires Remembers(l, store, key, now, store')
    ensures |Rivals(store', k, e)| <= |Rivals(store, k, e)| + if key != k && now + l.ttl >= e then 1 else 0
  {
    var before, after := Rivals(Live(store, now), k, e), Rivals(store', k, e);
    LiveRivals(store, k, e, now);
    if key != k && now + l.ttl >= e {
      SubsetSize(after, before + {key});
    } else {
      SubsetSize(after, before);
    }
  }

  lemma StepRivals(l: Limits, store: Store, k: Key, e: real, c: Call, store': Store)
    requires Step(l, store, c, store')
    ensures |Rivals(store', k, e)| <=
            |Rivals(store, k, e)| + if c.Remember? && c.key != k && c.now + l.ttl >= e then 1 else 0
  {
    if c.Check? {
      LiveRivals(store, k, e, c.now);
    } else {
      RememberRivals(l, store, k, e, c.key, c.now, store');
    }
  }

  lemma CountNext(l: Limits, calls: seq<Call>, i: nat, m: nat)
    requires i < |calls| && m < |calls|
    ensures RivalCount(calls, i, m) <= RivalCount(calls, i, m + 1)
    ensures calls[m].Remember? && calls[m].key != calls[i].key && calls[m].now + l.ttl >= calls[i].now + l.ttl ==>
              RivalCount(calls, i, m) + 1 == RivalCount(calls, i, m + 1)
  {
  }

  /** The cache never holds more rivals of a remember call than the calls can have put there. */
  lemma {:induction false} RivalsBounded(l: Limits, calls: seq<Call>, stores: seq<Store>, i: nat, n: nat)
    requires Run(l, calls, stores) && i < |calls| && calls[i].Remember? && n <= |calls|
    ensures |Rivals(stores[n], calls[i].key, calls[i].now + l.ttl)| <= RivalCount(calls, i, n)
  {
    var k, e := calls[i].key, calls[i].now + l.ttl;
    if n == 0 {
      assert Rivals(stores[0], k, e) == {};
    } else {
      var m := n - 1;
      RivalsBounded(l, calls, stores, i, m);
      RunStep(l, calls, stores, m);
      StepRivals(l, stores[m], k, e, calls[m], stores[n]);
      CountNext(l, calls, i, m);
    }
  }

  /** If `k` were the oldest of a full cache, all others would be its rivals. */
  lemma NotEvicted(live: Store, k: Key, e: real, max: nat)
    requires IsOldest(live, k) && live[k] == e && |Rivals(live, k, e)| + 1 < max
    ensures |live| < max
  {
    assert live.Keys == Rivals(live, k, e) + {k};
  }

  lemma RememberKeepsEntry(l: Limits, store: Store, k: Key, e: real, key: Key, now: real, store': Store)
    requires Remembers(l, store, key, now, store') && key != k
    requires k in store && store[k] == e && |Rivals(store, k, e)| + 1 < l.max
    ensures k in store' <==> now < e
    ensures k in store' ==> store'[k] == e
  {
    var live := Live(store, now);
    LiveRivals(store, k, e, now);
    if k in live && |live| >= l.max {
      var gone :| IsOldest(live, gone) && store' == (live - {gone})[key := now + l.ttl];
      if gone == k {
        NotEvicted(live, k, e, l.max);
      }
    }
  }

  /** One call that does not remember `k` keeps its entry exactly when it comes before the expiry. */
  lemma EntryStep(l: Limits, store: Store, c: Call, store': Store, k: Key, e: real)
    requires Step(l, store, c, store') && (k in store ==> store[k] == e)
    requires c.Remember? ==> c.key != k && (k in store ==> |Rivals(store, k, e)| + 1 < l.max)
    ensures k in store' <==> k in store && c.now < e
    ensures k in store' ==> store'[k] == e
  {
    if c.Remember? && k in store {
      RememberKeepsEntry(l, store, k, e, c.key, c.now, store');
    }
  }

  /** The cache after `n` calls holds call `i` exactly while it is alive. */
  ghost predicate EntryAt(l: Limits, calls: seq<Call>, i: nat, n: nat, store: Store)
    requires i < |calls| && n <= |calls|
  {
    var k := calls[i].key;
    (k in store <==> Alive(l, calls, i, n)) && (k in store ==> store[k] == calls[i].now + l.ttl)
  }

  lemma EntryBegins(l: Limits, calls: seq<Call>, i: nat, store: Store, store': Store)
    requires i < |calls| && calls[i].Remember? && Step(l, store, calls[i], store')
    ensures EntryAt(l, calls, i, i + 1, store')
  {
  }

  lemma EntryGoesOn(l: Limits, calls: seq<Call>, i: nat, m: nat, store: Store, store': Store)
    requires i < m < |calls| && Step(l, store, calls[m], store') && EntryAt(l, calls, i, m, store)
    requires calls[m].Remember? ==>
               calls[m].key != calls[i].key && |Rivals(store, calls[i].key, calls[i].now + l.ttl)| + 1 < l.max
    ensures EntryAt(l, calls, i, m + 1, store')
  {
    AliveNext(l, calls, i, m);
    EntryStep(l, store, calls[m], store', calls[i].key, calls[i].now + l.ttl);
  }

  lemma LastShrinks(calls: seq<Call>, i: nat, m: nat)
    requires i < m < |calls| && IsLast(calls, i, m + 1)
    ensures IsLast(calls, i, m) && RivalCount(calls, i, m) <= RivalCount(calls, i, m + 1)
    ensures calls[m].Remember? ==> calls[m].key != calls[i].key && RivalCount(calls, i, m) < RivalCount(calls, i, m + 1)
  {
  }

  /** With fewer rivals than the capacity, only its expiry removes the last remember call of a key. */
  lemma {:induction false} EntryIff(l: Limits, calls: seq<Call>, stores: seq<Store>, i: nat, n: nat)
    requires Run(l, calls, stores) && IsLast(calls, i, n) && RivalCount(calls, i, n) < l.max
    ensures EntryAt(l, calls, i, n, stores[n])
  {
    var m := n - 1;
    RunStep(l, calls, stores, m);
    if m == i {
      EntryBegins(l, calls, i, stores[m], stores[n]);
    } else {
      LastShrinks(calls, i, m);
      EntryIff(l, calls, stores, i, m);
      RivalsBounded(l, calls, stores, i, m);
      EntryGoesOn(l, calls, i, m, stores[m], stores[n]);
    }
  }

  lemma RunExtends(l: Limits, calls: seq<Call>, stores: seq<Store>, c: Call, store: Store)
    requires Run(l, calls, stores) && Step(l, stores[|calls|], c, store)
    ensures Run(l, calls + [c], stores + [store])
  {
    var calls', stores' := calls + [c], stores + [store];
    forall i | 0 <= i < |calls'|
      ensures CallStep(l, calls', stores', i)
    {
      if i < |calls| {
        RunStep(l, calls, stores, i);
      }
    }
  }

  lemma AliveNext(l: Limits, calls: seq<Call>, i: nat, n: nat)
    requires i < n < |calls|
    ensures Alive(l, calls, i, n + 1) <==> Alive(l, calls, i, n) && calls[n].now < calls[i].now + l.ttl
  {
  }

  /**
   The answer for a key is exact, in whatever order threads that read the clock reach the cache:
   for the last remember call of the key, with fewer than `max` rivals, it is positive exactly
   when the expiry has not been reached by this call nor by any call in between.
   */
  lemma DuplicateIff(l: Limits, calls: seq<Call>, stores: seq<Store>, i: nat, n: nat, now: real)
    requires Run(l, calls, stores) && IsLast(calls, i, n) && RivalCount(calls, i, n) < l.max && now >= 0.0
    ensures Duplicate(stores[n], calls[i].key, now) <==> now < calls[i].now + l.ttl && Alive(l, calls, i, n)
  {
    EntryIff(l, calls, stores, i, n);
  }

  // ----- a clock reading that is not overtaken

  /**
   Remember call `i` comes after those with older readings only, and its key is not remembered
   again with an older reading. A clock that rises from call to call gives this for every call.
   */
  ghost predicate NotOvertaken(calls: seq<Call>, i: nat, n: nat)
    requires i < n <= |calls|
  {
    && (forall m :: 0 <= m < i && calls[m].Remember? ==> calls[m].now < calls[i].now)
    && (forall m :: i < m < n && calls[m].Remember? && calls[m].key == calls[i].key ==> calls[m].now >= calls[i].now)
  }

  /** The remember calls from `m` up to `n`. */
  function RememberCount(calls: seq<Call>, m: nat, n: nat): nat
    requires n <= |calls|
  {
    if n <= m then 0 else RememberCount(calls, m, n - 1) + if calls[n - 1].Remember? then 1 else 0
  }

  /** The rivals of a later call of the same key were all made after call `i`, but perhaps call `i` itself. */
  lemma {:induction false} RivalsAreLater(calls: seq<Call>, i: nat, j: nat, n: nat)
    requires i <= j < |calls| && n <= |calls| && calls[j].Remember? && calls[i].now <= calls[j].now
    requires forall m :: 0 <= m < i && calls[m].Remember? ==> calls[m].now < calls[i].now
    ensures RivalCount(calls, j, n) <= RememberCount(calls, i + 1, n) + if i < n <= j then 1 else 0
  {
    if n > 0 {
      RivalsAreLater(calls, i, j, n - 1);
    }
  }

  lemma {:induction false} LastRemember(calls: seq<Call>, c: nat, n: nat) returns (i: nat)
    requires c < n <= |calls| && calls[c].Remember?
    ensures c <= i && IsLast(calls, i, n) && calls[i].key == calls[c].key
  {
    if n == c + 1 || (calls[n - 1].Remember? && calls[n - 1].key == calls[c].key) {
      i := n - 1;
    } else {
      i := LastRemember(calls, c, n - 1);
    }
  }

  /**
   A key whose reading was not overtaken is reported duplicate until its lifetime ends, through
   the next `max - 1` remember calls.
   */
  lemma RememberedIsDuplicate(l: Limits, calls: seq<Call>, stores: seq<Store>, i: nat, n: nat, now: real)
    requires Run(l, calls, stores) && i < n <= |calls| && calls[i].Remember? && NotOvertaken(calls, i, n)
    requires RememberCount(calls, i + 1, n) < l.max && Alive(l, calls, i, n) && 0.0 <= now < calls[i].now + l.ttl
    ensures Duplicate(stores[n], calls[i].key, now)
  {
    var j := LastRemember(calls, i, n);
    RivalsAreLater(calls, i, j, n);
    DuplicateIff(l, calls, stores, j, n, now);
  }

  // ----- a clock reading that is overtaken

  function Name(j: nat): (k: Key)
    ensures |k| == j
  {
    seq(j, _ => 'x')
  }

  function Filled(n: nat, e: real): Store {
    if n == 0 then map[] else Filled(n - 1, e)[Name(n - 1) := e]
  }

  lemma {:induction false} FilledFacts(n: nat, e: real)
    ensures forall x :: x in Filled(n, e) ==> |x| < n && Filled(n, e)[x] == e
    ensures |Filled(n, e)| == n
  {
    if n > 0 {
      FilledFacts(n - 1, e);
      assert Filled(n, e).Keys == Filled(n - 1, e).Keys + {Name(n - 1)};
    }
  }

  lemma FilledStep(l: Limits, n: nat, now: real)
    requires l.ttl > 0.0 && n < l.max
    ensures Step(l, Filled(n, now + l.ttl), Remember(Name(n), now), Filled(n + 1, now + l.ttl))
  {
    FilledFacts(n, now + l.ttl);
    assert Live(Filled(n, now + l.ttl), now) == Filled(n, now + l.ttl);
  }

  /** `n` remember calls of different keys at one time. */
  function EarlyCalls(n: nat, now: real): (calls: seq<Call>)
    ensures |calls| == n && forall c :: c in calls ==> c.now == now
  {
    if n == 0 then [] else EarlyCalls(n - 1, now) + [Remember(Name(n - 1), now)]
  }

  function EarlyStores(n: nat, e: real): (stores: seq<Store>)
    ensures |stores| == n + 1 && stores[n] == Filled(n, e)
  {
    if n == 0 then [map[]] else EarlyStores(n - 1, e) + [Filled(n, e)]
  }

  lemma {:induction false} EarlyRun(l: Limits, n: nat, now: real)
    requires l.ttl > 0.0 && n <= l.max
    ensures Run(l, EarlyCalls(n, now), EarlyStores(n, now + l.ttl))
  {
    if n > 0 {
      EarlyRun(l, n - 1, now);
      FilledStep(l, n - 1, now);
      RunExtends(l, EarlyCalls(n - 1, now), EarlyStores(n - 1, now + l.ttl),
                 Remember(Name(n - 1), now), Filled(n, now + l.ttl));
    }
  }

  /** A call read at 0 that finds one place left is evicted by the next call. */
  lemma OldReadingIsEvicted(l: Limits, full: Store, k: Key, c: Key, early: real, late: real)
    requires 0.0 < early <= late < l.ttl && |full| + 1 == l.max && k !in full
    requires forall x :: x in full ==> full[x] == early + l.ttl
    ensures Step(l, full, Remember(k, 0.0), full[k := l.ttl])
    ensures Step(l, full[k := l.ttl], Remember(c, late), full[c := late + l.ttl])
  {
    assert Live(full, 0.0) == full;
    var store := full[k := l.ttl];
    assert store.Keys == full.Keys + {k};
    assert Live(store, late) == store && IsOldest(store, k);
    assert store - {k} == full;
  }

  lemma OvertakingRun(l: Limits, k: Key, c: Key, early: real, late: real) returns (calls: seq<Call>, stores: seq<Store>)
    requires l.max >= 1 && 0.0 < early <= late < l.ttl && |c| > |k| == l.max
    ensures calls == EarlyCalls(l.max - 1, early) + [Remember(k, 0.0)] + [Remember(c, late)]
    ensures Run(l, calls, stores) && k !in stores[|calls|]
  {
    var n, e := l.max - 1, early + l.ttl;
    var full := Filled(n, e);
    FilledFacts(n, e);
    EarlyRun(l, n, early);
    OldReadingIsEvicted(l, full, k, c, early, late);
    calls, stores := EarlyCalls(n, early), EarlyStores(n, e);
    RunExtends(l, calls, stores, Remember(k, 0.0), full[k := l.ttl]);
    calls, stores := calls + [Remember(k, 0.0)], stores + [full[k := l.ttl]];
    RunExtends(l, calls, stores, Remember(c, late), full[c := late + l.ttl]);
    calls, stores := calls + [Remember(c, late)], stores + [full[c := late + l.ttl]];
  }

  /**
   The order of the calls matters, not only their number: a key whose clock reading was overtaken
   by `max - 1` remember calls before it reached the cache is forgotten after the very next one,
   though its lifetime has not ended.
   */
  lemma OvertakenKeyIsForgotten(l: Limits) returns (calls: seq<Call>, stores: seq<Store>, i: nat, now: real)
    requires l.max >= 2 && l.ttl > 0.0
    ensures Run(l, calls, stores) && IsLast(calls, i, |calls|) && RememberCount(calls, i + 1, |calls|) == 1 < l.max
    ensures forall c :: c in calls ==> 0.0 <= c.now < now
    ensures now < calls[i].now + l.ttl && Alive(l, calls, i, |calls|)
    ensures !Duplicate(stores[|calls|], calls[i].key, now)
  {
    i := l.max - 1;
    var early, late := l.ttl / 4.0, l.ttl / 2.0;
    now := late + early;
    calls, stores := OvertakingRun(l, Name(l.max), Name(l.max + 1), early, late);
    assert calls[i] == Remember(Name(l.max), 0.0) && calls[i + 1] == Remember(Name(l.max + 1), late);
    assert RememberCount(calls, i + 1, i + 1) == 0;
  }
}
