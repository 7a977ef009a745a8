/**
 The authorization cache: a map in order of use, whose entries expire and of which the least recently
 used is dropped when it is full; keyed by identities joined with a NUL.
 */
module AuthCache {
  import opened Options

  type Key = string

  datatype Entry = Entry(value: int, exp: int)

  /** `order`: the keys, least recently used first. */
  datatype Cache = Cache(order: seq<Key>, entries: map<Key, Entry>)

  function Drop(order: seq<Key>, k: Key): seq<Key> {
    if order == [] then []
    else if order[|order| - 1] == k then Drop(order[..|order| - 1], k)
    else Drop(order[..|order| - 1], k) + [order[|order| - 1]]
  }

  function Delete(c: Cache, k: Key): Cache {
    if k in c.entries then Cache(Drop(c.order, k), c.entries - {k}) else c
  }

  function Append(c: Cache, k: Key, e: Entry): Cache {
    Cache(Drop(c.order, k) + [k], c.entries[k := e])
  }

  /** A live entry is touched, a dead one dropped. */
  function Get(c: Cache, k: Key, now: int): (Cache, Option<int>) {
    if k !in c.entries then (c, None)
    else if c.entries[k].exp <= now then (Delete(c, k), None)
    else (Append(c, k, c.entries[k]), Some(c.entries[k].value))
  }

  function Evict(c: Cache, cap: nat): Cache
    decreases |c.order|
  {
    if |c.order| <= cap || c.order == [] then c
    else Evict(Cache(c.order[1..], c.entries - {c.order[0]}), cap)
  }

  function Put(c: Cache, k: Key, v: int, now: int, ttl: int, cap: nat): Cache {
    Evict(Append(c, k, Entry(v, now + ttl)), cap)
  }

  function Survivors(order: seq<Key>, gone: set<Key>): seq<Key> {
    if order == [] then []
    else if order[|order| - 1] in gone then Survivors(order[..|order| - 1], gone)
    else Survivors(order[..|order| - 1], gone) + [order[|order| - 1]]
  }

  function DeleteAll(c: Cache, gone: set<Key>): Cache {
    Cache(Survivors(c.order, gone), c.entries - gone)
  }

  // ---------- The order ----------

  lemma {:induction false} DropOnly(order: seq<Key>, k: Key)
    ensures forall x :: x in Drop(order, k) <==> x in order && x != k
    ensures |Drop(order, k)| <= |order|
  {
    if order != [] {
      var init, last := order[..|order| - 1], order[|order| - 1];
      DropOnly(init, k);
      assert order == init + [last];
    }
  }

  /** `f` grows along the order. */
  ghost predicate Ascending(order: seq<Key>, f: map<Key, nat>) {
    && (forall k | k in order :: k in f)
    && forall i, j {:trigger order[i], order[j]} | 0 <= i < j < |order| :: f[order[i]] < f[order[j]]
  }

  lemma {:induction false} DropAscends(order: seq<Key>, k: Key, f: map<Key, nat>)
    requires Ascending(order, f)
    ensures Ascending(Drop(order, k), f)
  {
    if order != [] {
      var init, last := order[..|order| - 1], order[|order| - 1];
      DropAscends(init, k, f);
      DropOnly(init, k);
      assert order == init + [last];
      if last != k {
        forall x | x in Drop(init, k)
          ensures f[x] < f[last]
        {
          var i :| 0 <= i < |init| && init[i] == x;
          assert order[i] == x && order[|order| - 1] == last;
        }
      }
    }
  }

  lemma {:induction false} SurvivorsOnly(order: seq<Key>, gone: set<Key>)
    ensures forall x :: x in Survivors(order, gone) <==> x in order && x !in gone
  {
    if order != [] {
      var init, last := order[..|order| - 1], order[|order| - 1];
      SurvivorsOnly(init, gone);
      assert order == init + [last];
    }
  }

  lemma {:induction false} SurvivorsAscend(order: seq<Key>, gone: set<Key>, f: map<Key, nat>)
    requires Ascending(order, f)
    ensures Ascending(Survivors(order, gone), f) && |Survivors(order, gone)| <= |order|
  {
    if order != [] {
      var init, last := order[..|order| - 1], order[|order| - 1];
      SurvivorsAscend(init, gone, f);
      SurvivorsOnly(init, gone);
      if last !in gone {
        forall x | x in Survivors(init, gone)
          ensures f[x] < f[last]
        {
          var i :| 0 <= i < |init| && init[i] == x;
          assert order[i] == x && order[|order| - 1] == last;
        }
      }
    }
  }

  // ---------- Loads, hits and invalidations ----------

  /** A call of the loader: what it read, when it began, when its value was stored, by clock and by count. */
  datatype Load = Load(key: Key, value: int, began: nat, storedAt: int, stored: nat)

  datatype Invalidation = Invalidation(keys: set<Key>, at: nat)

  /**
   History beside the cache: how many things have happened, when each key was last used, the load each
   entry came from, the loads still under way and the invalidations.
   */
  datatype World = World(
    cache: Cache, now: int, count: nat, used: map<Key, nat>, origin: map<Key, Load>, pending: seq<Load>, invs: seq<Invalidation>)

  /** Only what a loader finds is stored. */
  datatype Event =
    | Lookup(key: Key, loaded: int)
    | LoadEnds(index: nat)
    | LoadFindsNothing(index: nat)
    | Invalidate(keys: set<Key>)
    | Passes(ms: nat)

  function Initial(now: int): World {
    World(Cache([], map[]), now, 0, map[], map[], [], [])
  }

  /** A lookup: a hit touches its entry, a miss starts a load. */
  function DoLookup(w: World, k: Key, loaded: int): World {
    var r := Get(w.cache, k, w.now);
    if r.1.Some? then w.(cache := r.0, used := w.used[k := w.count], count := w.count + 1)
    else w.(cache := r.0, pending := w.pending + [Load(k, loaded, w.count, 0, 0)], count := w.count + 1)
  }

  function DoStore(w: World, i: nat, ttl: int, cap: nat): World
    requires i < |w.pending|
  {
    var l := w.pending[i].(storedAt := w.now, stored := w.count);
    w.(cache := Put(w.cache, l.key, l.value, w.now, ttl, cap), used := w.used[l.key := w.count], count := w.count + 1,
       origin := w.origin[l.key := l], pending := w.pending[..i] + w.pending[i + 1..])
  }

  function Step(w: World, e: Event, ttl: int, cap: nat): World {
    match e
    case Lookup(k, loaded) => DoLookup(w, k, loaded)
    case LoadEnds(i) => if i < |w.pending| then DoStore(w, i, ttl, cap) else w
    case LoadFindsNothing(i) => if i < |w.pending| then w.(pending := w.pending[..i] + w.pending[i + 1..]) else w
    case Invalidate(keys) => w.(cache := DeleteAll(w.cache, keys), invs := w.invs + [Invalidation(keys, w.count)], count := w.count + 1)
    case Passes(ms) => w.(now := w.now + ms)
  }

  function Run(w: World, es: seq<Event>, ttl: int, cap: nat): World
    decreases |es|
  {
    if es == [] then w else Run(Step(w, es[0], ttl, cap), es[1..], ttl, cap)
  }

  /** An invalidation of the key fell between the start of its load and the storing of the value. */
  ghost predicate Overtaken(w: World, l: Load) {
    exists i :: 0 <= i < |w.invs| && l.key in w.invs[i].keys && l.began < w.invs[i].at < l.stored
  }

  /** No invalidation of the key since its load began. */
  ghost predicate Untouched(w: World, l: Load) {
    forall i | 0 <= i < |w.invs| && l.key in w.invs[i].keys :: w.invs[i].at < l.began
  }

  /** The entry holds what its load brought, and no invalidation came after it was stored. */
  ghost predicate Traced(w: World, k: Key, ttl: int) {
    && k in w.cache.entries && k in w.origin
    && var l, e := w.origin[k], w.cache.entries[k];
       && l.key == k && e.value == l.value && e.exp == l.storedAt + ttl && l.storedAt <= w.now && l.began < l.stored < w.count
       && forall i | 0 <= i < |w.invs| && k in w.invs[i].keys :: w.invs[i].at < l.stored && w.invs[i].at != l.began
  }

  ghost predicate Sound(w: World, ttl: int, cap: nat) {
    && Listed(w.cache)
    && |w.cache.order| <= cap
    && Ascending(w.cache.order, w.used)
    && (forall k | k in w.used :: w.used[k] < w.count)
    && (forall k | k in w.cache.entries :: Traced(w, k, ttl))
    && (forall i | 0 <= i < |w.pending| :: Waiting(w, w.pending[i]))
    && (forall i | 0 <= i < |w.invs| :: w.invs[i].at < w.count)
  }

  ghost predicate Waiting(w: World, l: Load) {
    l.began < w.count && forall i | 0 <= i < |w.invs| :: w.invs[i].at != l.began
  }

  // ---------- Eviction ----------

  /** The keys in order are the keys of the entries. */
  ghost predicate Listed(c: Cache) {
    forall k :: k in c.order <==> k in c.entries
  }

  function Tail(c: Cache): Cache
    requires c.order != []
  {
    Cache(c.order[1..], c.entries - {c.order[0]})
  }

  lemma TailAscends(order: seq<Key>, f: map<Key, nat>)
    requires order != [] && Ascending(order, f)
    ensures Ascending(order[1..], f)
  {
    var rest := order[1..];
    forall k | k in rest
      ensures k in f
    {
      HeadOrTail(order, k);
    }
    forall i, j {:trigger rest[i], rest[j]} | 0 <= i < j < |rest|
      ensures f[rest[i]] < f[rest[j]]
    {
      assert rest[i] == order[i + 1] && rest[j] == order[j + 1];
    }
  }

  lemma HeadOrTail(order: seq<Key>, k: Key)
    requires order != []
    ensures k in order <==> k == order[0] || k in order[1..]
  {
    assert order == [order[0]] + order[1..];
  }

  lemma HeadIsOnce(order: seq<Key>, f: map<Key, nat>)
    requires order != [] && Ascending(order, f)
    ensures order[0] !in order[1..]
  {
    forall i | 0 <= i < |order[1..]|
      ensures order[1..][i] != order[0]
    {
      assert order[1..][i] == order[i + 1];
    }
  }

  lemma TailIsListed(c: Cache, f: map<Key, nat>)
    requires c.order != [] && Ascending(c.order, f) && Listed(c)
    ensures Ascending(Tail(c).order, f) && Listed(Tail(c))
  {
    TailAscends(c.order, f);
    HeadIsOnce(c.order, f);
    forall k
      ensures k in Tail(c).order <==> k in Tail(c).entries
    {
      HeadOrTail(c.order, k);
    }
  }

  function Excess(c: Cache, cap: nat): nat {
    if |c.order| <= cap then 0 else |c.order| - cap
  }

  lemma {:induction false} EvictOrder(c: Cache, cap: nat)
    ensures Evict(c, cap).order == c.order[Excess(c, cap)..]
    decreases |c.order|
  {
    if |c.order| > cap {
      EvictOrder(Tail(c), cap);
      DropTwice(c.order, Excess(Tail(c), cap));
    }
  }

  lemma DropTwice(order: seq<Key>, m: nat)
    requires m < |order|
    ensures order[1..][m..] == order[m + 1..]
  {
  }

  lemma {:induction false} EvictEntries(c: Cache, cap: nat)
    ensures forall k | k in Evict(c, cap).entries :: k in c.entries && Evict(c, cap).entries[k] == c.entries[k]
    decreases |c.order|
  {
    if |c.order| > cap {
      EvictEntries(Tail(c), cap);
    }
  }

  lemma {:induction false} EvictIsListed(c: Cache, cap: nat, f: map<Key, nat>)
    requires Ascending(c.order, f) && Listed(c)
    ensures Listed(Evict(c, cap)) && Ascending(Evict(c, cap).order, f)
    decreases |c.order|
  {
    if |c.order| > cap {
      TailIsListed(c, f);
      EvictIsListed(Tail(c), cap, f);
    }
  }

  /** Evicting keeps the end of the order, with the entries as they were. */
  lemma EvictKeepsTheEnd(c: Cache, cap: nat, f: map<Key, nat>)
    requires Ascending(c.order, f) && Listed(c)
    ensures var r := Evict(c, cap);
            && r.order == c.order[Excess(c, cap)..] && Ascending(r.order, f) && Listed(r)
            && (forall k | k in r.entries :: k in c.entries && r.entries[k] == c.entries[k])
  {
    EvictOrder(c, cap);
    EvictEntries(c, cap);
    EvictIsListed(c, cap, f);
  }

  lemma EndIsLater(order: seq<Key>, m: nat, f: map<Key, nat>, gone: Key, kept: Key)
    requires m <= |order| && Ascending(order, f) && gone in order && gone !in order[m..] && kept in order[m..]
    ensures f[gone] < f[kept]
  {
    var i :| 0 <= i < |order| && order[i] == gone;
    var j :| 0 <= j < |order[m..]| && order[m..][j] == kept;
    assert forall x | m <= x < |order| :: order[m..][x - m] == order[x];
    assert i < m;
    assert order[m + j] == kept;
  }

  lemma AscendingAppend(order: seq<Key>, k: Key, f: map<Key, nat>, at: nat)
    requires Ascending(order, f) && k !in order && forall x | x in order :: f[x] < at
    ensures Ascending(order + [k], f[k := at])
  {
    var n, g := order + [k], f[k := at];
    forall i, j {:trigger n[i], n[j]} | 0 <= i < j < |n|
      ensures g[n[i]] < g[n[j]]
    {
      assert n[i] == order[i] && order[i] in order;
      if j < |order| { assert n[j] == order[j] && order[j] in order; }
    }
  }

  lemma AppendIsListed(c: Cache, k: Key, e: Entry)
    requires Listed(c)
    ensures Listed(Append(c, k, e))
  {
    DropOnly(c.order, k);
    forall x
      ensures x in Drop(c.order, k) + [k] <==> x in c.entries[k := e]
    {
    }
  }

  lemma AppendAscends(c: Cache, k: Key, e: Entry, f: map<Key, nat>, at: nat)
    requires Ascending(c.order, f) && Listed(c) && forall x | x in f :: f[x] < at
    ensures var r := Append(c, k, e);
            Ascending(r.order, f[k := at]) && Listed(r)
  {
    DropOnly(c.order, k);
    DropAscends(c.order, k, f);
    AscendingAppend(Drop(c.order, k), k, f, at);
    AppendIsListed(c, k, e);
  }

  lemma {:induction false} DropOneShorter(order: seq<Key>, k: Key, f: map<Key, nat>)
    requires Ascending(order, f) && k in order
    ensures |Drop(order, k)| == |order| - 1
  {
    var init, last := order[..|order| - 1], order[|order| - 1];
    assert order == init + [last];
    if last == k {
      assert k !in init;
      DropNone(init, k);
    } else {
      DropOneShorter(init, k, f);
    }
  }

  lemma {:induction false} DropNone(order: seq<Key>, k: Key)
    requires k !in order
    ensures Drop(order, k) == order
  {
    if order != [] {
      var init := order[..|order| - 1];
      assert order == init + [order[|order| - 1]];
      DropNone(init, k);
    }
  }

  // ---------- Every run ----------

  lemma LookupKeeps(w: World, k: Key, loaded: int, ttl: int, cap: nat)
    requires Sound(w, ttl, cap)
    ensures Sound(DoLookup(w, k, loaded), ttl, cap)
  {
    if k in w.cache.entries {
      DropOnly(w.cache.order, k);
      DropAscends(w.cache.order, k, w.used);
      DropOneShorter(w.cache.order, k, w.used);
      AppendAscends(w.cache, k, w.cache.entries[k], w.used, w.count);
    }
    StillTraced(w, DoLookup(w, k, loaded), ttl);
  }

  /** Entries that are kept as they are, with their loads, stay traced. */
  lemma StillTraced(w: World, n: World, ttl: int)
    requires n.now == w.now && n.invs == w.invs && n.origin == w.origin && n.count >= w.count
    ensures forall k | Traced(w, k, ttl) && k in n.cache.entries && n.cache.entries[k] == w.cache.entries[k] :: Traced(n, k, ttl)
  {
  }

  /** The cache after a store, before it is known where its entries come from. */
  lemma StoreKeepsOrder(w: World, i: nat, ttl: int, cap: nat)
    requires Sound(w, ttl, cap) && i < |w.pending|
    ensures var n, k := DoStore(w, i, ttl, cap), w.pending[i].key;
            && Listed(n.cache) && |n.cache.order| <= cap && Ascending(n.cache.order, n.used)
            && (forall x | x in n.cache.entries && x != k :: x in w.cache.entries && n.cache.entries[x] == w.cache.entries[x])
            && (k in n.cache.entries ==> n.cache.entries[k] == Entry(w.pending[i].value, w.now + ttl))
  {
    PutKeepsOrder(w.cache, w.pending[i].key, w.pending[i].value, w.now, ttl, cap, w.used, w.count);
  }

  lemma PutKeepsOrder(c: Cache, k: Key, v: int, now: int, ttl: int, cap: nat, f: map<Key, nat>, at: nat)
    requires Ascending(c.order, f) && Listed(c) && forall x | x in f :: f[x] < at
    ensures var n := Put(c, k, v, now, ttl, cap);
            && Listed(n) && |n.order| <= cap && Ascending(n.order, f[k := at])
            && (forall x | x in n.entries && x != k :: x in c.entries && n.entries[x] == c.entries[x])
            && (k in n.entries ==> n.entries[k] == Entry(v, now + ttl))
  {
    AppendAscends(c, k, Entry(v, now + ttl), f, at);
    EvictKeepsTheEnd(Append(c, k, Entry(v, now + ttl)), cap, f[k := at]);
  }

  lemma StoreKeeps(w: World, i: nat, ttl: int, cap: nat)
    requires Sound(w, ttl, cap) && i < |w.pending|
    ensures Sound(DoStore(w, i, ttl, cap), ttl, cap)
  {
    var n := DoStore(w, i, ttl, cap);
    var l := w.pending[i];
    StoreKeepsOrder(w, i, ttl, cap);
    assert Waiting(w, l);
    forall k | k in n.cache.entries
      ensures Traced(n, k, ttl)
    {
      if k != l.key { assert Traced(w, k, ttl); }
    }
    forall j | 0 <= j < |n.pending|
      ensures Waiting(n, n.pending[j])
    {
      assert n.pending[j] == w.pending[if j < i then j else j + 1];
    }
  }

  lemma InvalidateKeeps(w: World, keys: set<Key>, ttl: int, cap: nat)
    requires Sound(w, ttl, cap)
    ensures Sound(Step(w, Invalidate(keys), ttl, cap), ttl, cap)
  {
    SurvivorsOnly(w.cache.order, keys);
    SurvivorsAscend(w.cache.order, keys, w.used);
    var n := Step(w, Invalidate(keys), ttl, cap);
    forall k | k in n.cache.entries
      ensures Traced(n, k, ttl)
    {
      assert Traced(w, k, ttl);
    }
    assert forall j | 0 <= j < |n.pending| :: Waiting(w, n.pending[j]);
  }

  lemma StepKeeps(w: World, e: Event, ttl: int, cap: nat)
    requires Sound(w, ttl, cap)
    ensures Sound(Step(w, e, ttl, cap), ttl, cap)
  {
    match e
    case Lookup(k, loaded) => LookupKeeps(w, k, loaded, ttl, cap);
    case LoadEnds(i) => if i < |w.pending| { StoreKeeps(w, i, ttl, cap); }
    case Invalidate(keys) => InvalidateKeeps(w, keys, ttl, cap);
    case LoadFindsNothing(i) => if i < |w.pending| { LoadFindsNothingKeeps(w, i, ttl, cap); }
    case Passes(ms) => PassesKeeps(w, ms, ttl, cap);
  }

  lemma LoadFindsNothingKeeps(w: World, i: nat, ttl: int, cap: nat)
    requires Sound(w, ttl, cap) && i < |w.pending|
    ensures Sound(Step(w, LoadFindsNothing(i), ttl, cap), ttl, cap)
  {
    var n := Step(w, LoadFindsNothing(i), ttl, cap);
    assert forall k | k in n.cache.entries :: Traced(w, k, ttl);
    assert forall j | 0 <= j < |n.pending| :: n.pending[j] == w.pending[if j < i then j else j + 1] && Waiting(w, n.pending[j]);
  }

  lemma PassesKeeps(w: World, ms: nat, ttl: int, cap: nat)
    requires Sound(w, ttl, cap)
    ensures Sound(Step(w, Passes(ms), ttl, cap), ttl, cap)
  {
    var n := Step(w, Passes(ms), ttl, cap);
    assert forall k | k in n.cache.entries :: Traced(w, k, ttl);
    assert forall j | 0 <= j < |n.pending| :: Waiting(w, n.pending[j]);
  }

  lemma {:induction false} RunKeeps(w: World, es: seq<Event>, ttl: int, cap: nat)
    requires Sound(w, ttl, cap)
    ensures Sound(Run(w, es, ttl, cap), ttl, cap)
    decreases |es|
  {
    if es != [] {
      StepKeeps(w, es[0], ttl, cap);
      RunKeeps(Step(w, es[0], ttl, cap), es[1..], ttl, cap);
    }
  }

  /**
   A hit is fresh. Over every run, also when loads overlap, a hit returns what one load of that key
   brought, stored less than one lifetime ago; and no invalidation of the key has come since that load
   began, exactly when none came while it was under way.
   */
  lemma HitIsFresh(es: seq<Event>, start: int, k: Key, ttl: int, cap: nat)
    ensures var w := Run(Initial(start), es, ttl, cap);
            var hit := Get(w.cache, k, w.now).1;
            && |w.cache.order| <= cap
            && (hit.Some? ==>
                  && k in w.origin
                  && var l := w.origin[k];
                     l.key == k && hit.value == l.value && w.now - l.storedAt < ttl && (Untouched(w, l) <==> !Overtaken(w, l)))
  {
    RunKeeps(Initial(start), es, ttl, cap);
    var w := Run(Initial(start), es, ttl, cap);
    if k in w.cache.entries && w.cache.entries[k].exp > w.now {
      assert Traced(w, k, ttl);
      var l := w.origin[k];
      forall i | !Overtaken(w, l) && 0 <= i < |w.invs| && l.key in w.invs[i].keys
        ensures w.invs[i].at < l.began
      {
      }
    }
  }

  /**
   And a stale hit there is: an invalidation that falls inside a load removes nothing, the load then stores
   what it read before, and the next lookup finds it.
   */
  lemma OvertakenLoadIsHit(k: Key, v: int, start: int, ttl: int, cap: nat)
    requires ttl > 0 && cap > 0
    ensures var w := Run(Initial(start), [Lookup(k, v), Invalidate({k}), LoadEnds(0)], ttl, cap);
            Get(w.cache, k, w.now).1 == Some(v) && k in w.origin && !Untouched(w, w.origin[k]) && Overtaken(w, w.origin[k])
  {
    var es := [Lookup(k, v), Invalidate({k}), LoadEnds(0)];
    var a := Step(Initial(start), es[0], ttl, cap);
    var b := Step(a, es[1], ttl, cap);
    assert es[1..] == [Invalidate({k}), LoadEnds(0)] && es[1..][1..] == [LoadEnds(0)];
    assert Run(Initial(start), es, ttl, cap) == Run(a, es[1..], ttl, cap);
    assert Run(a, es[1..], ttl, cap) == Run(b, [LoadEnds(0)], ttl, cap);
    assert Run(b, [LoadEnds(0)], ttl, cap) == Run(DoStore(b, 0, ttl, cap), [], ttl, cap);
    InitialIsSound(start, ttl, cap);
    StepKeeps(Initial(start), es[0], ttl, cap);
    StepKeeps(a, es[1], ttl, cap);
    assert b.pending == [Load(k, v, 0, 0, 0)] && b.now == start;
    StoredIsFound(b, 0, ttl, cap, start);
    var w := DoStore(b, 0, ttl, cap);
    assert w.invs == [Invalidation({k}, 1)] && k in w.invs[0].keys;
  }

  lemma InitialIsSound(start: int, ttl: int, cap: nat)
    ensures Sound(Initial(start), ttl, cap)
  {
  }

  /** What a store drops from a full cache was used before everything it keeps. */
  lemma EvictionIsLeastRecent(w: World, i: nat, ttl: int, cap: nat, gone: Key, kept: Key)
    requires Sound(w, ttl, cap) && i < |w.pending| && gone != w.pending[i].key
    requires var n := DoStore(w, i, ttl, cap); gone in w.cache.order && gone !in n.cache.order && kept in n.cache.order
    ensures var n := DoStore(w, i, ttl, cap);
            gone in n.used && kept in n.used && n.used[gone] < n.used[kept] && |n.cache.order| == cap
  {
    var l := w.pending[i];
    AppendEvicts(w.cache, l.key, Entry(l.value, w.now + ttl), w.used, w.count, cap, gone, kept);
  }

  lemma AppendEvicts(c: Cache, k: Key, e: Entry, f: map<Key, nat>, at: nat, cap: nat, gone: Key, kept: Key)
    requires Ascending(c.order, f) && Listed(c) && forall x | x in f :: f[x] < at
    requires gone != k && gone in c.order && gone !in Evict(Append(c, k, e), cap).order && kept in Evict(Append(c, k, e), cap).order
    ensures gone in f && kept in f[k := at] && f[gone] < f[k := at][kept] && |Evict(Append(c, k, e), cap).order| == cap
  {
    var n, used := Append(c, k, e), f[k := at];
    AppendAscends(c, k, e, f, at);
    EvictKeepsTheEnd(n, cap, used);
    DropOnly(c.order, k);
    assert gone in n.order by { assert n.order == Drop(c.order, k) + [k]; }
    EndIsLater(n.order, Excess(n, cap), used, gone, kept);
  }

  lemma EvictKeepsTheLast(c: Cache, cap: nat, f: map<Key, nat>, k: Key)
    requires Ascending(c.order, f) && Listed(c) && c.order != [] && cap > 0 && c.order[|c.order| - 1] == k
    ensures k in Evict(c, cap).order
  {
    EvictKeepsTheEnd(c, cap, f);
    var m := Excess(c, cap);
    assert c.order[m..][|c.order| - 1 - m] == k;
  }

  lemma PutIsFound(c: Cache, k: Key, v: int, now: int, ttl: int, cap: nat, f: map<Key, nat>, at: nat, later: int)
    requires Ascending(c.order, f) && Listed(c) && (forall x | x in f :: f[x] < at) && cap > 0 && later < now + ttl
    ensures Get(Put(c, k, v, now, ttl, cap), k, later).1 == Some(v)
  {
    AppendAscends(c, k, Entry(v, now + ttl), f, at);
    EvictKeepsTheLast(Append(c, k, Entry(v, now + ttl)), cap, f[k := at], k);
    PutKeepsOrder(c, k, v, now, ttl, cap, f, at);
  }

  /** What is stored is found, with its value, as long as it lives. */
  lemma StoredIsFound(w: World, i: nat, ttl: int, cap: nat, later: int)
    requires Sound(w, ttl, cap) && i < |w.pending| && cap > 0 && later < w.now + ttl
    ensures Get(DoStore(w, i, ttl, cap).cache, w.pending[i].key, later).1 == Some(w.pending[i].value)
  {
    PutIsFound(w.cache, w.pending[i].key, w.pending[i].value, w.now, ttl, cap, w.used, w.count, later);
  }
}
