/** The cache object, and the keys that identities are joined into. */
module AuthCacheMap {
  import opened Options
  import opened AuthCache

  class TtlCache {
    const ttl: int
    const cap: nat
    var order: seq<Key>
    var entries: map<Key, Entry>

    ghost function View(): Cache
      reads this
    {
      Cache(order, entries)
    }

    ghost predicate Valid()
      reads this
    {
      Listed(View())
    }

    constructor (ttl: int, cap: nat)
      ensures Valid() && View() == Cache([], map[]) && this.ttl == ttl && this.cap == cap
    {
      this.ttl, this.cap := ttl, cap;
      order, entries := [], map[];
    }

    method Remove(k: Key)
      requires Valid()
      modifies this
      ensures Valid() && View() == Delete(old(View()), k)
    {
      DropOnly(order, k);
      if k in entries { order, entries := Drop(order, k), entries - {k}; }
    }

    /** A hit is moved to the end; its expiry stays as it was. */
    method Find(k: Key, now: int) returns (v: Option<int>)
      requires Valid()
      modifies this
      ensures Valid() && View() == Get(old(View()), k, now).0 && v == Get(old(View()), k, now).1
    {
      if k !in entries { return None; }
      var e := entries[k];
      DropOnly(order, k);
      if e.exp <= now {
        Remove(k);
        return None;
      }
      order := Drop(order, k) + [k];
      return Some(e.value);
    }

    method Store(k: Key, v: int, now: int)
      requires Valid()
      modifies this
      ensures View() == Put(old(View()), k, v, now, ttl, cap)
    {
      DropOnly(order, k);
      if k in entries { order := Drop(order, k); } else { assert Drop(order, k) == order by { DropNone(order, k); } }
      order, entries := order + [k], entries[k := Entry(v, now + ttl)];
      while |order| > cap
        invariant Evict(View(), cap) == Put(old(View()), k, v, now, ttl, cap)
        decreases |order|
      {
        if order == [] { break; }
        var oldest := order[0];
        order, entries := order[1..], entries - {oldest};
      }
    }

    /** Delete every key the predicate picks. */
    method RemoveWhere(pred: Key -> bool)
      requires Valid()
      modifies this
      ensures Valid() && View() == DeleteAll(old(View()), Picked(old(order), pred))
    {
      var keys := order;
      DeleteNone(View(), pred);
      for i := 0 to |keys|
        invariant Valid() && View() == DeleteAll(old(View()), Picked(keys[..i], pred))
      {
        var k := keys[i];
        assert keys[..i + 1] == keys[..i] + [k];
        ghost var gone := Picked(keys[..i], pred);
        PickedGrows(keys[..i], k, pred);
        if pred(k) {
          DeleteOneMore(old(View()), gone, k);
          Remove(k);
        }
      }
      assert keys[..|keys|] == keys;
    }
  }

  lemma DeleteNone(c: Cache, pred: Key -> bool)
    ensures DeleteAll(c, Picked([], pred)) == c
  {
    assert Picked([], pred) == {};
    SurvivorsOfNone(c.order);
  }

  function Picked(order: seq<Key>, pred: Key -> bool): set<Key> {
    set k | k in order && pred(k)
  }

  lemma PickedGrows(order: seq<Key>, k: Key, pred: Key -> bool)
    ensures Picked(order + [k], pred) == if pred(k) then Picked(order, pred) + {k} else Picked(order, pred)
  {
  }

  lemma {:induction false} SurvivorsOfNone(order: seq<Key>)
    ensures Survivors(order, {}) == order
  {
    if order != [] { SurvivorsOfNone(order[..|order| - 1]); }
  }

  lemma {:induction false} SurvivorsDrop(order: seq<Key>, gone: set<Key>, k: Key)
    ensures Survivors(order, gone + {k}) == Drop(Survivors(order, gone), k)
  {
    if order != [] {
      var init, last := order[..|order| - 1], order[|order| - 1];
      SurvivorsDrop(init, gone, k);
      var rest := Survivors(init, gone);
      assert (rest + [last])[..|rest|] == rest;
    }
  }

  /** Deleting many is deleting one after the other. */
  lemma DeleteOneMore(c: Cache, gone: set<Key>, k: Key)
    requires Listed(DeleteAll(c, gone))
    ensures DeleteAll(c, gone + {k}) == Delete(DeleteAll(c, gone), k)
  {
    SurvivorsDrop(c.order, gone, k);
    DropAbsent(DeleteAll(c, gone), k);
  }

  /** Deleting a key that is not there changes nothing. */
  lemma DropAbsent(c: Cache, k: Key)
    requires Listed(c)
    ensures Delete(c, k) == Cache(Drop(c.order, k), c.entries - {k})
  {
    if k !in c.entries { DropNone(c.order, k); }
  }

  // ---------- Keys ----------

  const SEP: char := '\0'

  function MembershipKey(uid: string, idp: Option<string>): Key {
    uid + [SEP] + if idp.Some? then idp.value else ""
  }

  function NormsKey(tenant: string, user: string): Key {
    tenant + [SEP] + user
  }

  /** The keys an invalidation of the user drops. */
  predicate DroppedByUid(uid: string, k: Key) {
    k == uid || uid + [SEP] <= k
  }

  predicate DroppedByTenant(tenant: string, k: Key) {
    tenant + [SEP] <= k
  }

  lemma PrefixOfJoined(a: string, b: string, rest: string)
    requires SEP !in a
    ensures a + [SEP] <= b + [SEP] + rest <==> a == b || a + [SEP] <= b
  {
    var k, p := b + [SEP] + rest, a + [SEP];
    assert k[|b|] == SEP && p[|a|] == SEP;
    assert |b| < |a| ==> p[|b|] == a[|b|] != SEP;
    assert p <= k && |a| <= |b| ==> forall i | 0 <= i < |a| :: a[i] == p[i] == k[i] == b[i];
    assert p <= b ==> p <= k;
  }

  /**
   An invalidation is exact. For an id without a NUL it drops the entries of that user, and of another id
   only if that id itself begins with this one and a NUL, which no id does.
   */
  lemma InvalidationIsExact(uid: string, other: string, idp: Option<string>)
    requires SEP !in uid
    ensures DroppedByUid(uid, MembershipKey(other, idp)) <==> other == uid || uid + [SEP] <= other
    ensures SEP !in other ==> (DroppedByUid(uid, MembershipKey(other, idp)) <==> other == uid)
  {
    var rest := if idp.Some? then idp.value else "";
    PrefixOfJoined(uid, other, rest);
    assert MembershipKey(other, idp)[|other|] == SEP;
    assert (uid + [SEP])[|uid|] == SEP;
  }

  lemma TenantInvalidationIsExact(tenant: string, other: string, user: string)
    requires SEP !in tenant && SEP !in other
    ensures DroppedByTenant(tenant, NormsKey(other, user)) <==> other == tenant
  {
    PrefixOfJoined(tenant, other, user);
    assert (tenant + [SEP])[|tenant|] == SEP;
  }

  /** The keys of two memberships, and of two sets of norms, are the same exactly if the identities are. */
  lemma IdentitiesAreDistinct(u: string, v: string, a: Option<string>, b: Option<string>, s: string, r: string)
    requires SEP !in u && SEP !in v
    ensures MembershipKey(u, a) == MembershipKey(v, b) <==>
              u == v && (if a.Some? then a.value else "") == if b.Some? then b.value else ""
    ensures NormsKey(u, s) == NormsKey(v, r) <==> u == v && s == r
  {
    KeysAreDistinct(u, v, if a.Some? then a.value else "", if b.Some? then b.value else "");
    KeysAreDistinct(u, v, s, r);
  }

  /** No two identities share a key; an absent identity provider counts as an empty one. */
  lemma KeysAreDistinct(u: string, v: string, a: string, b: string)
    requires SEP !in u && SEP !in v
    ensures u + [SEP] + a == v + [SEP] + b <==> u == v && a == b
  {
    PrefixOfJoined(u, v, b);
    var k, l := u + [SEP] + a, v + [SEP] + b;
    assert (u + [SEP])[|u|] == SEP;
    if k == l {
      assert u + [SEP] <= k;
      assert a == k[|u| + 1..] && b == l[|v| + 1..];
    }
  }
}
