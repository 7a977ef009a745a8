/**
 How long the authorization cache keeps what it has: no longer than its lifetime, and at least as long as
 fewer keys than it has room for are in use.
 */
module AuthCacheKept {
  import opened Options
  import opened AuthCache

  function Elapsed(es: seq<Event>): nat {
    if es == [] then 0 else (if es[0].Passes? then es[0].ms else 0) + Elapsed(es[1..])
  }

  lemma {:induction false} TimePasses(w: World, es: seq<Event>, ttl: int, cap: nat)
    ensures Run(w, es, ttl, cap).now == w.now + Elapsed(es)
    decreases |es|
  {
    if es != [] { TimePasses(Step(w, es[0], ttl, cap), es[1..], ttl, cap); }
  }

  // ---------- No longer than its lifetime ----------

  /** No load of the key is under way. */
  ghost predicate NotLoading(w: World, k: Key) {
    forall i | 0 <= i < |w.pending| :: w.pending[i].key != k
  }

  /** Of the entry there is no more than there was. */
  predicate NoNewer(w: World, n: World, k: Key) {
    k in n.cache.entries ==> k in w.cache.entries && n.cache.entries[k] == w.cache.entries[k]
  }

  lemma StepBringsNone(w: World, e: Event, k: Key, ttl: int, cap: nat)
    requires Sound(w, ttl, cap) && NotLoading(w, k) && (e.Lookup? ==> e.key != k)
    ensures var n := Step(w, e, ttl, cap); NotLoading(n, k) && NoNewer(w, n, k)
  {
    if e.LoadEnds? && e.index < |w.pending| {
      StoreKeepsOrder(w, e.index, ttl, cap);
    }
  }

  lemma {:induction false} RunBringsNone(w: World, es: seq<Event>, k: Key, ttl: int, cap: nat)
    requires Sound(w, ttl, cap) && NotLoading(w, k) && forall e | e in es :: e.Lookup? ==> e.key != k
    ensures NoNewer(w, Run(w, es, ttl, cap), k)
    decreases |es|
  {
    if es != [] {
      StepBringsNone(w, es[0], k, ttl, cap);
      StepKeeps(w, es[0], ttl, cap);
      RunBringsNone(Step(w, es[0], ttl, cap), es[1..], k, ttl, cap);
    }
  }

  /** Nothing outlives its lifetime: one lifetime after anybody last asked for a key, it is not found. */
  lemma ExpiresInTime(w: World, es: seq<Event>, k: Key, ttl: int, cap: nat)
    requires Sound(w, ttl, cap) && NotLoading(w, k) && forall e | e in es :: e.Lookup? ==> e.key != k
    requires Elapsed(es) >= ttl
    ensures var r := Run(w, es, ttl, cap); Get(r.cache, k, r.now).1.None?
  {
    TimePasses(w, es, ttl, cap);
    RunBringsNone(w, es, k, ttl, cap);
    if k in w.cache.entries { assert Traced(w, k, ttl); }
  }

  /** A lookup leaves the key in the cache exactly if it is found: what is dead is dropped. */
  lemma DeadIsDropped(w: World, k: Key, loaded: int, ttl: int, cap: nat)
    requires Sound(w, ttl, cap)
    ensures k in Step(w, Lookup(k, loaded), ttl, cap).cache.entries <==> Get(w.cache, k, w.now).1.Some?
    ensures forall x | x != k :: x in w.cache.entries <==> x in Step(w, Lookup(k, loaded), ttl, cap).cache.entries
  {
  }

  // ---------- At least as long as there is room ----------

  /** Looks up only the key and some others, and invalidates others at most. */
  predicate Leaves(e: Event, k: Key, others: set<Key>) {
    match e
    case Lookup(x, _) => x == k || x in others
    case Invalidate(keys) => k !in keys
    case _ => true
  }

  /** The key is there beyond `until`, and only the others were used since it was. */
  ghost predicate Recent(w: World, k: Key, others: set<Key>, until: int) {
    && k in w.cache.entries && w.cache.entries[k].exp > until
    && k in w.used && (forall x | x in w.cache.order :: x in w.used && (w.used[x] <= w.used[k] || x in others))
    && forall i | 0 <= i < |w.pending| :: w.pending[i].key == k || w.pending[i].key in others
  }

  lemma {:induction false} NoMoreThan(order: seq<Key>, f: map<Key, nat>, others: set<Key>)
    requires Ascending(order, f) && forall x | x in order :: x in others
    ensures |order| <= |others|
  {
    if order != [] {
      TailAscends(order, f);
      HeadIsOnce(order, f);
      assert forall x | x in order[1..] :: x in order;
      NoMoreThan(order[1..], f, others - {order[0]});
    }
  }

  lemma {:induction false} SuffixAscends(order: seq<Key>, f: map<Key, nat>, m: nat)
    requires m <= |order| && Ascending(order, f)
    ensures Ascending(order[m..], f)
  {
    if m > 0 {
      TailAscends(order, f);
      SuffixAscends(order[1..], f, m - 1);
      assert order[1..][m - 1..] == order[m..];
    } else {
      assert order[m..] == order;
    }
  }

  lemma KeptAtTheEnd(order: seq<Key>, f: map<Key, nat>, k: Key, others: set<Key>, m: nat)
    requires Ascending(order, f) && k in order && m <= |order| && |others| < |order| - m
    requires forall x | x in order :: f[x] <= f[k] || x in others
    ensures k in order[m..]
  {
    var i :| 0 <= i < |order| && order[i] == k;
    if i < m {
      var later := order[i + 1..];
      SuffixAscends(order, f, i + 1);
      forall x | x in later ensures x in others {
        var j :| 0 <= j < |later| && later[j] == x;
        assert order[i + 1 + j] == x && x in order;
      }
      NoMoreThan(later, f, others);
    } else {
      assert order[m..][i - m] == k;
    }
  }

  /** The cache's own part of it, by the order of use. */
  ghost predicate RecentIn(c: Cache, f: map<Key, nat>, k: Key, others: set<Key>, until: int) {
    && k in c.entries && c.entries[k].exp > until
    && k in f && forall x | x in c.order :: x in f && (f[x] <= f[k] || x in others)
  }

  lemma AppendKeepsRecent(c: Cache, x: Key, e: Entry, f: map<Key, nat>, at: nat, k: Key, others: set<Key>, until: int)
    requires RecentIn(c, f, k, others, until) && (x == k || x in others) && (x == k ==> e.exp > until)
    requires forall y | y in f :: f[y] < at
    ensures RecentIn(Append(c, x, e), f[x := at], k, others, until)
  {
    DropOnly(c.order, x);
  }

  lemma EndIsRecent(c: Cache, r: Cache, m: nat, f: map<Key, nat>, k: Key, others: set<Key>, until: int)
    requires RecentIn(c, f, k, others, until) && m <= |c.order| && r.order == c.order[m..] && k in r.order && Listed(r)
    requires forall x | x in r.entries :: x in c.entries && r.entries[x] == c.entries[x]
    ensures RecentIn(r, f, k, others, until)
  {
    forall x | x in r.order ensures x in c.order {
      var i :| 0 <= i < |r.order| && r.order[i] == x;
      assert c.order[m + i] == x;
    }
  }

  lemma EvictKeepsRecent(c: Cache, cap: nat, f: map<Key, nat>, k: Key, others: set<Key>, until: int)
    requires RecentIn(c, f, k, others, until) && Ascending(c.order, f) && Listed(c) && |others| < cap
    ensures RecentIn(Evict(c, cap), f, k, others, until)
  {
    EvictKeepsTheEnd(c, cap, f);
    if |c.order| > cap {
      KeptAtTheEnd(c.order, f, k, others, |c.order| - cap);
    }
    EndIsRecent(c, Evict(c, cap), Excess(c, cap), f, k, others, until);
  }

  lemma PutKeepsRecent(c: Cache, x: Key, v: int, now: int, f: map<Key, nat>, at: nat, k: Key, others: set<Key>, until: int, ttl: int, cap: nat)
    requires RecentIn(c, f, k, others, until) && (x == k || x in others) && (x == k ==> now + ttl > until)
    requires Ascending(c.order, f) && Listed(c) && (forall y | y in f :: f[y] < at) && |others| < cap
    ensures RecentIn(Put(c, x, v, now, ttl, cap), f[x := at], k, others, until)
  {
    var e := Entry(v, now + ttl);
    AppendKeepsRecent(c, x, e, f, at, k, others, until);
    AppendAscends(c, x, e, f, at);
    EvictKeepsRecent(Append(c, x, e), cap, f[x := at], k, others, until);
  }

  lemma StoreKeepsRecent(w: World, i: nat, k: Key, others: set<Key>, until: int, ttl: int, cap: nat)
    requires Sound(w, ttl, cap) && Recent(w, k, others, until) && |others| < cap && i < |w.pending|
    ensures Recent(DoStore(w, i, ttl, cap), k, others, until)
  {
    var l, pending := w.pending[i], w.pending[..i] + w.pending[i + 1..];
    assert Traced(w, k, ttl);
    PutKeepsRecent(w.cache, l.key, l.value, w.now, w.used, w.count, k, others, until, ttl, cap);
    forall j | 0 <= j < |pending| ensures pending[j].key == k || pending[j].key in others {
      assert pending[j] == w.pending[if j < i then j else j + 1];
    }
  }

  lemma LookupKeepsRecent(w: World, x: Key, loaded: int, k: Key, others: set<Key>, until: int, ttl: int, cap: nat)
    requires Sound(w, ttl, cap) && Recent(w, k, others, until) && (x == k || x in others) && w.now <= until
    ensures Recent(DoLookup(w, x, loaded), k, others, until)
  {
    DropOnly(w.cache.order, x);
  }

  lemma StepKeepsRecent(w: World, e: Event, k: Key, others: set<Key>, until: int, ttl: int, cap: nat)
    requires Sound(w, ttl, cap) && Recent(w, k, others, until) && Leaves(e, k, others) && |others| < cap && w.now <= until
    ensures Recent(Step(w, e, ttl, cap), k, others, until)
  {
    match e
    case Lookup(x, loaded) => LookupKeepsRecent(w, x, loaded, k, others, until, ttl, cap);
    case LoadEnds(i) => if i < |w.pending| { StoreKeepsRecent(w, i, k, others, until, ttl, cap); }
    case Invalidate(keys) => SurvivorsOnly(w.cache.order, keys);
    case LoadFindsNothing(i) =>
      if i < |w.pending| {
        var n := Step(w, e, ttl, cap);
        assert forall j | 0 <= j < |n.pending| :: n.pending[j] == w.pending[if j < i then j else j + 1];
      }
    case Passes(_) =>
  }

  lemma {:induction false} RunKeepsRecent(w: World, es: seq<Event>, k: Key, others: set<Key>, until: int, ttl: int, cap: nat)
    requires Sound(w, ttl, cap) && Recent(w, k, others, until) && |others| < cap && w.now + Elapsed(es) <= until
    requires forall e | e in es :: Leaves(e, k, others)
    ensures Recent(Run(w, es, ttl, cap), k, others, until)
    decreases |es|
  {
    if es != [] {
      StepKeepsRecent(w, es[0], k, others, until, ttl, cap);
      StepKeeps(w, es[0], ttl, cap);
      RunKeepsRecent(Step(w, es[0], ttl, cap), es[1..], k, others, until, ttl, cap);
    }
  }

  /**
   What is in use is kept: over any run that looks up, besides a key just used, fewer keys than the cache has room
   for, and does not invalidate the key, it is found for as long as it lives.
   */
  lemma RecentIsFound(w: World, es: seq<Event>, k: Key, others: set<Key>, ttl: int, cap: nat)
    requires Sound(w, ttl, cap) && Recent(w, k, others, w.now + Elapsed(es)) && |others| < cap
    requires forall e | e in es :: Leaves(e, k, others)
    ensures var r := Run(w, es, ttl, cap); Get(r.cache, k, r.now).1.Some?
  {
    RunKeepsRecent(w, es, k, others, w.now + Elapsed(es), ttl, cap);
    TimePasses(w, es, ttl, cap);
  }
}
