/**
 What each step of the store does, key by key: what the server takes and answers, what the browser keeps of the
 answer, what is read after a removal, and how long it waits after failures.
 */
module StoreMeaning {
  import opened Options
  import opened Store
  import opened StoreSettles

  function At<V>(m: map<Key, V>, k: Key): Option<V> {
    if k in m then Some(m[k]) else None
  }

  // ---------- The server ----------

  /** The request sets the key, and the key may be written by its sender. */
  predicate Sends(w: World, f: Flight, k: Key) {
    k in f.batch.sets && k !in w.denied
  }

  /** It says no version, or the one there is, or there is none. */
  predicate Fits(w: World, f: Flight, k: Key) {
    k in w.server && k in f.expected ==> w.server[k].version == f.expected[k]
  }

  function NextVersion(w: World, k: Key): nat {
    if k in w.server then w.server[k].version + 1 else 1
  }

  /**
   A request, key by key: what fits is stored under the next version and reported, what does not is left as it was and
   reported as a conflict with what is there, what is to go goes; a key that the sender may not write is left alone.
   */
  lemma ServedExactly(w: World, i: nat, k: Key)
    requires i < |w.flights| && w.flights[i].reply.None?
    ensures var f, n := w.flights[i], Step(w, Serve(i));
            && At(n.server, k) == (if k in f.batch.deletes && k !in w.denied then None
                                   else if Sends(w, f, k) && Fits(w, f, k) then Some(Row(f.batch.sets[k], NextVersion(w, k)))
                                   else At(w.server, k))
            && At(n.hist.applied, k) == (if Sends(w, f, k) && Fits(w, f, k) then Some(f.batch.sets[k]) else At(w.hist.applied, k))
            && n.client == w.client && |n.flights| == |w.flights| && n.flights[i].reply.Some?
            && ReportsOn(w, f, n.flights[i].reply.value, k)
            && Step(n, Serve(i)) == n
  {
    var f := w.flights[i];
    var p := Permitted(f.batch, w.denied);
    assert k in p.sets <==> Sends(w, f, k);
    if Sends(w, f, k) && !Fits(w, f, k) { assert k in Conflicts(w.server, p.sets, f.expected); }
  }

  /** The reply names the key as a conflict exactly if it was sent and does not fit; if any is, it gives the versions of those that do. */
  predicate ReportsOn(w: World, f: Flight, r: Reply, k: Key) {
    match r
    case Done => !(Sends(w, f, k) && !Fits(w, f, k))
    case Conflicted(cs, vs) =>
      && At(cs, k) == (if Sends(w, f, k) && !Fits(w, f, k) then At(w.server, k) else None)
      && At(vs, k) == (if Sends(w, f, k) && Fits(w, f, k) then Some(NextVersion(w, k)) else None)
  }

  lemma DoneIffAllFit(w: World, i: nat)
    requires i < |w.flights| && w.flights[i].reply.None?
    ensures Step(w, Serve(i)).flights[i].reply == Some(Done) <==> forall k | k in w.flights[i].batch.sets :: k in w.denied || Fits(w, w.flights[i], k)
  {
    var f := w.flights[i];
    var cs := Conflicts(w.server, Permitted(f.batch, w.denied).sets, f.expected);
    forall k | k in f.batch.sets ensures k in cs <==> k !in w.denied && !Fits(w, f, k) {
      ServedExactly(w, i, k);
    }
    if cs != map[] {
      var k :| k in cs;
      assert k in f.batch.sets;
    }
  }

  // ---------- The browser ----------

  /** A flush sends all that is queued, with the version held of each key that is set, and nothing is queued after. */
  lemma FlushedExactly(w: World, k: Key)
    ensures var n := Step(w, Flush);
            && n.client.dirty == Empty() && n.client.timer.None? && n.client.cache == w.client.cache && n.client.versions == w.client.versions
            && (w.client.dirty == Empty() ==> n.flights == w.flights)
            && (w.client.dirty != Empty() ==>
                  && |n.flights| == |w.flights| + 1 && n.flights[..|w.flights|] == w.flights
                  && var f := n.flights[|w.flights|];
                     f.batch == w.client.dirty && f.reply.None?
                     && At(f.expected, k) == if k in f.batch.sets then At(w.client.versions, k) else None)
  {
  }

  lemma ConflictTakenOver(c: Client, b: Batch, cs: map<Key, Row>, vs: map<Key, nat>, k: Key)
    ensures var n := OnConflict(c, b, cs, vs);
            && At(n.cache, k) == (if k in cs then Some(cs[k].value) else At(c.cache, k))
            && At(n.versions, k) == (if k in cs then Some(cs[k].version) else if k in vs then Some(vs[k]) else At(c.versions, k))
            && At(n.dirty.sets, k) == (if k in c.dirty.sets || !(k in cs && k in b.sets) then At(c.dirty.sets, k) else Some(b.sets[k]))
            && n.dirty.deletes == c.dirty.deletes
  {
    assert k in Retried(b.sets, cs) <==> k in cs && k in b.sets;
  }

  lemma ConflictIsWaitedOut(c: Client, b: Batch, cs: map<Key, Row>, vs: map<Key, nat>)
    ensures var n := OnConflict(c, b, cs, vs);
            if forall x | x in b.sets :: x !in cs then n.timer == c.timer && n.retryDelay == c.retryDelay
            else n.retryDelay == NextDelay(c.retryDelay) && n.timer == Some(n.retryDelay)
  {
    var retry := Retried(b.sets, cs);
    if x :| x in b.sets && x in cs { assert x in retry; }
  }

  /**
   An answer, key by key: of a conflict the server's value and version are taken over, and the edit that was refused is
   queued again, unless there is a newer one or it was a removal; nothing that fits is queued again.
   */
  lemma DeliveredExactly(w: World, i: nat, k: Key)
    requires i < |w.flights| && w.flights[i].reply.Some?
    ensures var f, c, n := w.flights[i], w.client, Step(w, Deliver(i)).client;
            match f.reply.value
            case Done => n == c.(retryDelay := 0)
            case Conflicted(cs, vs) =>
              && At(n.cache, k) == (if k in cs then Some(cs[k].value) else At(c.cache, k))
              && At(n.versions, k) == (if k in cs then Some(cs[k].version) else if k in vs then Some(vs[k]) else At(c.versions, k))
              && At(n.dirty.sets, k) == (if k in c.dirty.sets || !(k in cs && k in f.batch.sets) then At(c.dirty.sets, k) else Some(f.batch.sets[k]))
              && n.dirty.deletes == c.dirty.deletes
              && if forall x | x in f.batch.sets :: x !in cs then n.timer == c.timer && n.retryDelay == c.retryDelay
                 else n.retryDelay == NextDelay(c.retryDelay) && n.timer == Some(n.retryDelay)
  {
    var f := w.flights[i];
    if f.reply.value.Conflicted? {
      var cs, vs := f.reply.value.conflicts, f.reply.value.versions;
      ConflictTakenOver(w.client, f.batch, cs, vs, k);
      ConflictIsWaitedOut(w.client, f.batch, cs, vs);
      assert Step(w, Deliver(i)).client == OnConflict(w.client, f.batch, cs, vs);
    }
  }

  /** A failed request is queued again whole, under the edits made since; one that is refused for good is reported, and dropped. */
  lemma FailedExactly(w: World, i: nat, k: Key)
    requires i < |w.flights|
    ensures var f, c, n := w.flights[i], w.client, Step(w, Fail(i));
            && n.flights == w.flights[..i] + w.flights[i + 1..] && n.server == w.server && n.hist == w.hist
            && At(n.client.dirty.sets, k) == (if k in c.dirty.sets then At(c.dirty.sets, k) else At(f.batch.sets, k))
            && (k in n.client.dirty.deletes <==> k in c.dirty.deletes || k in f.batch.deletes)
            && n.client.cache == c.cache && n.client.versions == c.versions
            && n.client.retryDelay == NextDelay(c.retryDelay) && n.client.timer == Some(n.client.retryDelay)
    ensures var f, n := w.flights[i], Step(w, Refuse(i));
            if f.reply.None?
            then n.flights == w.flights[..i] + w.flights[i + 1..] && n.client == w.client && n.server == w.server
                 && At(n.hist.rejected, k) == (if k in f.batch.sets then At(f.batch.sets, k) else At(w.hist.rejected, k))
            else n == w
  {
  }

  /** Another's write gives the key its value, and the next version; the browser learns nothing of it. */
  lemma OthersWriteLands(w: World, k: Key, v: string)
    ensures var n := Step(w, OthersWrite(k, v));
            && At(n.server, k) == Some(Row(v, NextVersion(w, k))) && (forall x | x != k :: At(n.server, x) == At(w.server, x))
            && n.client == w.client && n.flights == w.flights && n.hist == w.hist
  {
  }

  /** The steps of a run are taken in turn. */
  lemma {:induction false} StepsInTurn(w: World, es: seq<Event>, e: Event)
    ensures Run(w, es + [e]) == Step(Run(w, es), e)
    decreases |es|
  {
    if es == [] {
      assert [] + [e] == [e] && [e][1..] == [];
      assert Run(Step(w, e), []) == Step(w, e);
    } else {
      assert (es + [e])[0] == es[0] && (es + [e])[1..] == es[1..] + [e];
      StepsInTurn(Step(w, es[0]), es[1..], e);
    }
  }

  // ---------- Removals ----------

  /** The delivered answer names the key as a conflict. */
  predicate Names(w: World, e: Event, k: Key) {
    && e.Deliver? && e.index < |w.flights| && w.flights[e.index].reply.Some?
    && w.flights[e.index].reply.value.Conflicted? && k in w.flights[e.index].reply.value.conflicts
  }

  predicate NeverNamed(w: World, es: seq<Event>, k: Key)
    decreases |es|
  {
    es == [] || (!Names(w, es[0], k) && NeverNamed(Step(w, es[0]), es[1..], k))
  }

  lemma {:induction false} UnreadStaysUnread(w: World, es: seq<Event>, k: Key)
    requires w.client.hydrated && k !in w.client.cache && NeverNamed(w, es, k)
    requires forall e | e in es :: !(e.SetItem? && e.key == k)
    ensures k !in Run(w, es).client.cache
    decreases |es|
  {
    if es != [] {
      assert es[0] in es;
      UnreadStaysUnread(Step(w, es[0]), es[1..], k);
    }
  }

  /** What is removed is not read, until it is set again or a conflict brings the server's value back. */
  lemma RemovedIsNotRead(w: World, es: seq<Event>, k: Key)
    requires w.client.hydrated && NeverNamed(Step(w, RemoveItem(k)), es, k)
    requires forall e | e in es :: !(e.SetItem? && e.key == k)
    ensures k !in Run(Step(w, RemoveItem(k)), es).client.cache
  {
    UnreadStaysUnread(Step(w, RemoveItem(k)), es, k);
  }

  // ---------- Failures in a row ----------

  /** A flush, and the request fails. */
  function FailOnce(w: World): World {
    Step(Step(w, Flush), Fail(0))
  }

  function FailTimes(w: World, n: nat): World {
    if n == 0 then w else FailOnce(FailTimes(w, n - 1))
  }

  lemma OneFailure(w: World)
    requires w.flights == [] && w.client.dirty != Empty()
    ensures var d := NextDelay(w.client.retryDelay);
            FailOnce(w).client == w.client.(retryDelay := d, timer := Some(d)) && FailOnce(w).flights == []
  {
    var s := Step(w, Flush);
    WithoutOnly(s.flights);
    assert Requeue(Empty(), w.client.dirty) == w.client.dirty;
  }

  /** Each failure in a row is waited out longer, as long as the delays say, and loses nothing of what is queued. */
  lemma {:induction false} FailuresAreWaitedOut(w: World, n: nat)
    requires w.flights == [] && w.client.dirty != Empty() && w.client.retryDelay == 0
    ensures var r := FailTimes(w, n);
            && r.flights == [] && r.client.dirty == w.client.dirty && r.client.cache == w.client.cache && r.client.versions == w.client.versions
            && r.client.retryDelay == DelayAfter(n) && (n > 0 ==> r.client.timer == Some(DelayAfter(n)))
  {
    if n > 0 {
      FailuresAreWaitedOut(w, n - 1);
      OneFailure(FailTimes(w, n - 1));
    }
  }
}
