/**
 What the store comes to. With no other writer two rounds save everything; but a success does not
 bring the new version home, so the next save of the same key conflicts with the store's own, and the
 page then reads what it had written before.
 */
module StoreSettles {
  import opened Numbers
  import opened Options
  import opened Store

  /** One healthy round trip: flush, apply, answer. */
  function Round(w: World): World {
    Step(Step(Step(w, Flush), Serve(0)), Deliver(0))
  }

  /** The store is at rest between requests, and no key is both set and removed. */
  predicate Ready(w: World) {
    w.client.hydrated && w.flights == [] && w.client.dirty.sets.Keys !! w.client.dirty.deletes
  }

  /** What stays queued of `b` was refused for its version, which is now known. */
  ghost predicate Kept(b: Batch, denied: set<Key>, c: Client, server: map<Key, Row>) {
    && c.hydrated && c.dirty.deletes == {}
    && forall k | k in c.dirty.sets ::
         k in b.sets && k !in denied && c.dirty.sets[k] == b.sets[k]
         && k in server && k in c.versions && c.versions[k] == server[k].version
  }

  /** What does not stay queued was saved, removed, or dropped; nothing else changed. */
  ghost predicate Taken(b: Batch, denied: set<Key>, left: map<Key, string>, before: map<Key, Row>, after: map<Key, Row>) {
    && (forall k | k in b.sets && k !in left && k !in denied :: k in after && after[k].value == b.sets[k])
    && (forall k | k !in b.sets || k in denied :: k in after <==> k in before && (k !in b.deletes || k in denied))
    && (forall k | (k !in b.sets || k in denied) && k in after :: after[k] == before[k])
  }

  ghost predicate Took(w: World, n: World) {
    && n.flights == [] && n.denied == w.denied && n.hist.last == w.hist.last
    && Kept(w.client.dirty, w.denied, n.client, n.server)
    && Taken(w.client.dirty, w.denied, n.client.dirty.sets, w.server, n.server)
  }

  /** The batch of `w` on its way, and dealt with by the server. */
  function Served(w: World): World {
    Step(Step(w, Flush), Serve(0))
  }

  lemma RoundTakes(w: World)
    requires Ready(w)
    ensures Took(w, Round(w)) && Ready(Round(w))
  {
    var b, p := w.client.dirty, Permitted(w.client.dirty, w.denied);
    if b != Empty() {
      var f := Flight(b, VersionsFor(w.client.versions, b.sets), None);
      assert Step(w, Flush).flights == [f];
      var s := Served(w);
      WithoutOnly(s.flights);
      AnswerKeeps(w.client.(dirty := Empty(), timer := None), b, w.denied, w.server, f.expected, s.server);
      ServerTakes(b, w.denied, f.expected, w.server, s.server);
    }
  }

  /** The store after the answer to its only batch. */
  lemma AnswerKeeps(c: Client, b: Batch, denied: set<Key>, before: map<Key, Row>, expected: map<Key, nat>, after: map<Key, Row>)
    requires c.hydrated && c.dirty == Empty() && b.sets.Keys !! b.deletes
    requires after == PutSets(before, Permitted(b, denied).sets, expected) - Permitted(b, denied).deletes
    ensures var p := Permitted(b, denied);
            var n := OnReply(c, b, ReplyOf(before, p.sets, expected));
            Kept(b, denied, n, after) && n.dirty.sets.Keys == Conflicts(before, p.sets, expected).Keys
  {
    var p := Permitted(b, denied);
    var cs := Conflicts(before, p.sets, expected);
    var n := OnReply(c, b, ReplyOf(before, p.sets, expected));
    assert n.dirty.sets == Retried(b.sets, cs);
    assert n.dirty.sets.Keys == cs.Keys;
    forall k | k in n.dirty.sets
      ensures k in after && k in n.versions && n.versions[k] == after[k].version
    {
      assert k in cs;
    }
  }

  lemma ServerTakes(b: Batch, denied: set<Key>, expected: map<Key, nat>, before: map<Key, Row>, after: map<Key, Row>)
    requires b.sets.Keys !! b.deletes
    requires after == PutSets(before, Permitted(b, denied).sets, expected) - Permitted(b, denied).deletes
    ensures forall left: map<Key, string> | left.Keys == Conflicts(before, Permitted(b, denied).sets, expected).Keys ::
              Taken(b, denied, left, before, after)
  {
    var p := Permitted(b, denied);
    forall left: map<Key, string> | left.Keys == Conflicts(before, p.sets, expected).Keys
      ensures Taken(b, denied, left, before, after)
    {
      forall k | k in b.sets && k !in left && k !in denied
        ensures k in after && after[k].value == b.sets[k]
      {
        assert k in p.sets && k !in left.Keys;
      }
    }
  }

  /** A batch whose versions are the server's is taken whole. */
  lemma MatchingIsTaken(w: World)
    requires Ready(w) && w.client.dirty.deletes == {}
    requires forall k | k in w.client.dirty.sets :: k in w.server && k in w.client.versions && w.client.versions[k] == w.server[k].version
    ensures Round(w).client.dirty == Empty()
  {
    var b := w.client.dirty;
    if b != Empty() {
      var f := Flight(b, VersionsFor(w.client.versions, b.sets), None);
      assert Step(w, Flush).flights == [f];
      assert Conflicts(w.server, Permitted(b, w.denied).sets, f.expected) == map[];
      WithoutOnly(Served(w).flights);
    }
  }

  /** With no other writer and a healthy server, everything queued is on the server after at most two rounds. */
  lemma SettlesInTwo(w: World)
    requires Ready(w)
    ensures var n, b := Round(Round(w)), w.client.dirty;
            && n.client.dirty == Empty() && n.flights == []
            && (forall k | k in b.sets && k !in w.denied :: k in n.server && n.server[k].value == b.sets[k])
            && (forall k | k in b.deletes && k !in w.denied :: k !in n.server)
            && (forall k | k !in b.sets && k !in b.deletes :: k in n.server <==> k in w.server)
  {
    var one := Round(w);
    RoundTakes(w);
    RoundTakes(one);
    MatchingIsTaken(one);
  }

  /** The last edit of a key reaches the server: after two rounds a set key has its value there, a removed key is gone. */
  lemma EditsReachTheServer(w: World, k: Key, v: string)
    requires Ready(w) && k !in w.denied
    ensures var n := Round(Round(Step(w, SetItem(k, v)))); k in n.server && n.server[k].value == v && n.client.dirty == Empty()
    ensures var n := Round(Round(Step(w, RemoveItem(k)))); k !in n.server && n.client.dirty == Empty()
  {
    SettlesInTwo(Step(w, SetItem(k, v)));
    SettlesInTwo(Step(w, RemoveItem(k)));
  }

  // ---------- Conflicts with oneself ----------

  /** At rest, with the version of `k` as it is on the server: a key as it was loaded. */
  predicate AsLoaded(w: World, k: Key) {
    && Ready(w) && w.client.dirty == Empty() && k !in w.denied
    && k in w.server && k in w.client.versions && w.client.versions[k] == w.server[k].version
  }

  /** Loading gives every key of the server its version and its value. */
  lemma LoadedKeysAreAsLoaded(w: World, k: Key)
    requires Gated(w) && !w.client.hydrated && k in w.server && k !in w.denied
    ensures var n := Step(w, Hydrate); AsLoaded(n, k) && k in n.client.cache && n.client.cache[k] == w.server[k].value
  {
  }

  /** A key whose version the store holds, alone in its request. */
  function Versioned(k: Key, v: string, version: nat): Flight {
    Flight(Batch(map[k := v], {}), map[k := version], None)
  }

  lemma FlushVersioned(w: World, k: Key, v: string)
    requires k in w.client.versions && w.client.dirty == Batch(map[k := v], {}) && w.flights == []
    ensures Step(w, Flush) == w.(client := w.client.(dirty := Empty(), timer := None),
                                 flights := [Versioned(k, v, w.client.versions[k])], hist := w.hist.(sent := w.hist.sent + 1))
  {
    assert k in w.client.dirty.sets;
    assert VersionsFor(w.client.versions, w.client.dirty.sets) == map[k := w.client.versions[k]];
  }

  /** The version the store holds for the key is not the server's. */
  predicate Stale(w: World, k: Key) {
    k in w.client.versions && k in w.server && w.client.versions[k] != w.server[k].version
  }

  lemma FlushOne(w: World, k: Key, v: string)
    requires w.client.dirty == Batch(map[k := v], {}) && w.flights == []
    ensures Step(w, Flush) == w.(client := w.client.(dirty := Empty(), timer := None),
                                 flights := [Flight(w.client.dirty, VersionsFor(w.client.versions, map[k := v]), None)],
                                 hist := w.hist.(sent := w.hist.sent + 1))
  {
    assert k in w.client.dirty.sets;
  }

  lemma MatchingSaves(w: World, k: Key, v: string)
    requires Ready(w) && w.client.dirty == Batch(map[k := v], {}) && k !in w.denied && !Stale(w, k)
    ensures var n := Round(w);
            && Ready(n) && n.denied == w.denied && n.client.dirty == Empty()
            && k in n.server && n.server[k] == Row(v, NewVersion(w.server, k))
            && n.client.versions == w.client.versions && n.client.cache == w.client.cache
  {
    FlushOne(w, k, v);
    var f := Flight(w.client.dirty, VersionsFor(w.client.versions, map[k := v]), None);
    assert Permitted(f.batch, w.denied) == f.batch;
    assert Accepts(w.server, k, f.expected);
    assert Conflicts(w.server, f.batch.sets, f.expected) == map[];
    WithoutOnly(Served(w).flights);
  }

  lemma StaleConflicts(w: World, k: Key, v: string)
    requires Ready(w) && w.client.dirty == Batch(map[k := v], {}) && k !in w.denied && Stale(w, k)
    ensures var n := Round(w);
            && Ready(n) && n.denied == w.denied && n.client.dirty == Batch(map[k := v], {})
            && k in n.server && n.server[k] == w.server[k]
            && k in n.client.versions && n.client.versions[k] == w.server[k].version
            && k in n.client.cache && n.client.cache[k] == w.server[k].value
  {
    FlushVersioned(w, k, v);
    var f := Versioned(k, v, w.client.versions[k]);
    var cs := map[k := w.server[k]];
    assert Permitted(f.batch, w.denied) == f.batch;
    assert Conflicts(w.server, f.batch.sets, f.expected) == cs;
    assert k in cs;
    assert VersionsOf(w.server, f.batch.sets, f.expected) == map[];
    assert PutSets(w.server, f.batch.sets, f.expected) == w.server;
    var s := Served(w);
    assert s.flights == [f.(reply := Some(Conflicted(cs, map[])))];
    WithoutOnly(s.flights);
    assert Retried(f.batch.sets, cs) == map[k := v];
    assert k in Retried(f.batch.sets, cs);
    assert Requeue(Empty(), Batch(map[k := v], {})) == Batch(map[k := v], {});
  }

  /**
   When a save conflicts. One edited key and a healthy round: the edit is refused and queued again exactly when the
   version held is not the server's, and saved otherwise; and the version is then stale exactly when it was right
   and the save was not of its successor, for what was saved brings no version home.
   */
  lemma RoundConflicts(w: World, k: Key, v: string)
    requires Ready(w) && w.client.dirty == Batch(map[k := v], {}) && k !in w.denied
    ensures var n := Round(w);
            && n.client.dirty == (if Stale(w, k) then w.client.dirty else Empty())
            && (k in n.server && n.server[k] == if Stale(w, k) then w.server[k] else Row(v, NewVersion(w.server, k)))
            && (Stale(n, k) <==> !Stale(w, k) && k in w.client.versions && w.client.versions[k] != NewVersion(w.server, k))
  {
    if Stale(w, k) { StaleConflicts(w, k, v); } else { MatchingSaves(w, k, v); }
  }

  /** Nothing queued or on its way, and the key's version stale. */
  predicate StaleAtRest(w: World, k: Key) {
    Ready(w) && w.client.dirty == Empty() && k !in w.denied && Stale(w, k)
  }

  /** An edit of the key, and two healthy rounds. */
  function Saved2(w: World, k: Key, v: string): World {
    Round(Round(Step(w, SetItem(k, v))))
  }

  function SavedAll(w: World, k: Key, vs: seq<string>): World {
    if vs == [] then w else Saved2(SavedAll(w, k, vs[..|vs| - 1]), k, vs[|vs| - 1])
  }

  lemma SetIsQueued(w: World, k: Key, v: string)
    requires Ready(w) && w.client.dirty == Empty()
    ensures var n := Step(w, SetItem(k, v));
            Ready(n) && n.client.dirty == Batch(map[k := v], {}) && n.server == w.server && n.client.versions == w.client.versions && n.denied == w.denied
  {
  }

  lemma SaveLeavesStale(w: World, k: Key, v: string)
    requires StaleAtRest(w, k)
    ensures StaleAtRest(Saved2(w, k, v), k)
    ensures Round(Step(w, SetItem(k, v))).client.dirty == Batch(map[k := v], {})
    ensures k in Saved2(w, k, v).server && Saved2(w, k, v).server[k].value == v
  {
    SetIsQueued(w, k, v);
    StaleConflicts(Step(w, SetItem(k, v)), k, v);
    MatchingSaves(Round(Step(w, SetItem(k, v))), k, v);
  }

  lemma FirstSaveLeavesStale(w: World, k: Key, v: string)
    requires AsLoaded(w, k)
    ensures Round(Step(w, SetItem(k, v))).client.dirty == Empty() && StaleAtRest(Saved2(w, k, v), k)
  {
    SetIsQueued(w, k, v);
    MatchingSaves(Step(w, SetItem(k, v)), k, v);
  }

  /** Of all the saves of a loaded key, with nobody else writing, the first alone does not conflict, however many there are. */
  lemma {:induction false} EveryLaterSaveConflicts(w: World, k: Key, first: string, vs: seq<string>, v: string)
    requires AsLoaded(w, k)
    ensures StaleAtRest(SavedAll(Saved2(w, k, first), k, vs), k)
    ensures Round(Step(SavedAll(Saved2(w, k, first), k, vs), SetItem(k, v))).client.dirty == Batch(map[k := v], {})
  {
    if vs == [] {
      FirstSaveLeavesStale(w, k, first);
    } else {
      EveryLaterSaveConflicts(w, k, first, vs[..|vs| - 1], v);
      SaveLeavesStale(SavedAll(Saved2(w, k, first), k, vs[..|vs| - 1]), k, vs[|vs| - 1]);
    }
    SaveLeavesStale(SavedAll(Saved2(w, k, first), k, vs), k, v);
  }

  /**
   The second save of a loaded key always conflicts, although nobody else wrote it: the page reads its
   own earlier value again, and goes on reading it after the retry has saved the later one.
   */
  lemma SecondSaveReadsOld(w: World, k: Key, first: string, second: string)
    requires AsLoaded(w, k)
    ensures var a := Round(Step(w, SetItem(k, first)));
            var b := Round(Step(a, SetItem(k, second)));
            var c := Round(b);
            && k in a.client.cache && a.client.cache[k] == first && k in a.server && a.server[k].value == first
            && b.client.dirty == Batch(map[k := second], {}) && k in b.client.cache && b.client.cache[k] == first
            && c.client.dirty == Empty() && k in c.server && c.server[k].value == second
            && k in c.client.cache && c.client.cache[k] == first
  {
    var w1 := Step(w, SetItem(k, first));
    assert w1.client.dirty == Batch(map[k := first], {});
    MatchingSaves(w1, k, first);
    var a1 := Step(Round(w1), SetItem(k, second));
    assert a1.client.dirty == Batch(map[k := second], {});
    StaleConflicts(a1, k, second);
    MatchingSaves(Round(a1), k, second);
  }

  /** A key no conflict has named since its last edit reads as that edit. */
  ghost predicate ReadsOwn(w: World) {
    forall k | IsSet(w.hist, k) && k !in w.hist.overruled :: k in w.client.cache && w.client.cache[k] == w.hist.last[k].value
  }

  lemma StepReadsOwn(w: World, e: Event)
    requires ReadsOwn(w) && Gated(w)
    ensures ReadsOwn(Step(w, e))
  {
  }

  lemma {:induction false} ReadYourWrites(w: World, es: seq<Event>)
    requires ReadsOwn(w) && Gated(w)
    ensures ReadsOwn(Run(w, es))
    decreases |es|
  {
    if es != [] {
      StepReadsOwn(w, es[0]);
      StepIsGated(w, es[0]);
      ReadYourWrites(Step(w, es[0]), es[1..]);
    }
  }

  // ---------- Where the conditions are needed ----------

  /** A store at rest that holds no version of `k`: a key it is about to create. */
  predicate NewKey(w: World, k: Key) {
    Ready(w) && w.client.dirty == Empty() && k !in w.client.versions && k !in w.denied
  }

  /** Flushing a lone key without a version puts this request on the way. */
  function Lone(k: Key, v: string): Flight {
    Flight(Batch(map[k := v], {}), map[], None)
  }

  lemma FlushLone(w: World, k: Key, v: string)
    requires k !in w.client.versions && w.client.dirty == Batch(map[k := v], {})
    ensures Step(w, Flush).flights == w.flights + [Lone(k, v)] && Step(w, Flush).client == w.client.(dirty := Empty(), timer := None)
    ensures Step(w, Flush).server == w.server && Step(w, Flush).denied == w.denied && Step(w, Flush).hist.last == w.hist.last
  {
    assert k in w.client.dirty.sets && VersionsFor(w.client.versions, w.client.dirty.sets) == map[];
  }

  lemma ServeLone(w: World, i: nat, k: Key, v: string)
    requires i < |w.flights| && w.flights[i] == Lone(k, v) && k !in w.denied
    ensures var n := Step(w, Serve(i));
            && n.flights == w.flights[i := Lone(k, v).(reply := Some(Done))]
            && k in n.server && n.server[k].value == v && n.client == w.client && n.denied == w.denied && n.hist.last == w.hist.last
  {
    var f := Lone(k, v);
    assert Permitted(f.batch, w.denied) == f.batch;
    assert Conflicts(w.server, f.batch.sets, f.expected) == map[];
  }

  /** Both requests on the way, the newer saved, the older still unanswered. */
  lemma BothOnTheWay(w: World, k: Key, older: string, newer: string)
    requires NewKey(w, k)
    ensures var sent := Step(Step(Step(Step(w, SetItem(k, older)), Flush), SetItem(k, newer)), Flush);
            var c := Step(Step(sent, Serve(1)), Deliver(1));
            && c.flights == [Lone(k, older)] && c.client.dirty == Empty() && c.client.versions == w.client.versions
            && c.denied == w.denied && c.hist.last == w.hist.last[k := Some(newer)]
  {
    var a := Step(w, SetItem(k, older));
    FlushLone(a, k, older);
    var b := Step(Step(a, Flush), SetItem(k, newer));
    assert b.client.dirty == Batch(map[k := newer], {});
    FlushLone(b, k, newer);
    ServeLone(Step(b, Flush), 1, k, newer);
  }

  /** A lone request fails, is queued again and saved. */
  lemma FailedIsSavedLater(w: World, k: Key, v: string)
    requires w.flights == [Lone(k, v)] && w.client.dirty == Empty() && k !in w.client.versions && k !in w.denied
    ensures var n := Round(Step(w, Fail(0)));
            n.client.dirty == Empty() && n.flights == [] && k in n.server && n.server[k].value == v && n.hist.last == w.hist.last
  {
    WithoutOnly(w.flights);
    var d := Step(w, Fail(0));
    assert d.client.dirty == Batch(map[k := v], {});
    FlushLone(d, k, v);
    ServeLone(Step(d, Flush), 0, k, v);
    WithoutOnly(Served(d).flights);
  }

  /** Two requests at once: when the older fails after the newer was saved, the older value wins in the end. */
  lemma OverlapRestoresTheOlder(w: World, k: Key, older: string, newer: string)
    requires NewKey(w, k)
    ensures var sent := Step(Step(Step(Step(w, SetItem(k, older)), Flush), SetItem(k, newer)), Flush);
            var n := Round(Step(Step(Step(sent, Serve(1)), Deliver(1)), Fail(0)));
            && n.client.dirty == Empty() && n.flights == [] && k in n.server && n.server[k].value == older
            && n.hist.last == w.hist.last[k := Some(newer)]
  {
    var sent := Step(Step(Step(Step(w, SetItem(k, older)), Flush), SetItem(k, newer)), Flush);
    BothOnTheWay(w, k, older, newer);
    FailedIsSavedLater(Step(Step(sent, Serve(1)), Deliver(1)), k, older);
  }

  /** A removal that fails is queued again beside the newer value of its key, and then removes it. */
  lemma FailedRemovalWins(w: World, k: Key, v: string)
    requires NewKey(w, k)
    ensures var n := Round(Step(Step(Step(Step(w, RemoveItem(k)), Flush), SetItem(k, v)), Fail(0)));
            n.client.dirty == Empty() && n.flights == [] && k !in n.server && n.hist.last[k] == Some(v)
  {
    FailedRemovalIsQueued(w, k, v);
    SetAndRemovedIsRemoved(Step(Step(Step(Step(w, RemoveItem(k)), Flush), SetItem(k, v)), Fail(0)), k, v);
  }

  lemma FailedRemovalIsQueued(w: World, k: Key, v: string)
    requires NewKey(w, k)
    ensures var c := Step(Step(Step(Step(w, RemoveItem(k)), Flush), SetItem(k, v)), Fail(0));
            && c.client.dirty == Batch(map[k := v], {k}) && c.flights == [] && k !in c.client.versions && k !in c.denied
            && k in c.hist.last && c.hist.last[k] == Some(v)
  {
    var a := Step(w, RemoveItem(k));
    assert a.client.dirty == Batch(map[], {k});
    var b := Step(Step(a, Flush), SetItem(k, v));
    assert b.flights == [Flight(Batch(map[], {k}), map[], None)];
    WithoutOnly(b.flights);
  }

  lemma SetAndRemovedIsRemoved(w: World, k: Key, v: string)
    requires w.client.dirty == Batch(map[k := v], {k}) && w.flights == [] && k !in w.client.versions && k !in w.denied
    ensures var n := Round(w);
            n.client.dirty == Empty() && n.flights == [] && k !in n.server && n.hist.last == w.hist.last
  {
    var f := Flight(w.client.dirty, map[], None);
    assert VersionsFor(w.client.versions, f.batch.sets) == f.expected;
    assert k in f.batch.sets && Step(w, Flush).flights == [f];
    assert Permitted(f.batch, w.denied) == f.batch;
    assert Conflicts(w.server, f.batch.sets, f.expected) == map[];
    WithoutOnly(Served(w).flights);
  }

  /** A key the server's scoping drops is answered with success and saved nowhere. */
  lemma DroppedKeyIsLost(w: World, k: Key, v: string)
    requires Ready(w) && w.client.dirty == Empty() && k in w.denied
    ensures var n := Round(Step(w, SetItem(k, v)));
            n.client.dirty == Empty() && n.flights == [] && n.server == w.server && n.hist.rejected == w.hist.rejected
  {
    var a := Step(w, SetItem(k, v));
    assert k in a.client.dirty.sets && a.client.dirty == Batch(map[k := v], {});
    assert Permitted(a.client.dirty, w.denied) == Empty();
    var s := Served(a);
    WithoutOnly(s.flights);
    assert PutSets(w.server, map[], VersionsFor(a.client.versions, a.client.dirty.sets)) == w.server;
  }

  // ---------- Backing off ----------

  /** The wait after the `n`-th failure in a row. */
  function DelayAfter(n: nat): nat {
    if n == 0 then 0 else NextDelay(DelayAfter(n - 1))
  }

  /** A second, doubling with each failure in a row, and never more than thirty. */
  lemma {:induction false} BackoffDoublesToCap(n: nat)
    ensures DelayAfter(n + 1) == if RETRY_MIN_MS * Pow2(n) < RETRY_MAX_MS then RETRY_MIN_MS * Pow2(n) else RETRY_MAX_MS
  {
    if n > 0 { BackoffDoublesToCap(n - 1); }
  }
}
