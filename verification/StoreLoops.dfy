/** The store object in the browser and the route on the server, as the loops and updates they are. */
module StoreLoops {
  import opened Options
  import opened Store

  /** One more of the keys of `m` is done. */
  lemma OneMoreDone<V>(m: map<Key, V>, todo: set<Key>, k: Key)
    requires k in todo && todo <= m.Keys
    ensures (m - todo)[k := m[k]] == m - (todo - {k}) && k !in m - todo
  {
  }

  lemma OneMoreVersion(base: map<Key, nat>, seen: map<Key, Row>, k: Key, r: Row)
    ensures base + VersionsIn(seen[k := r]) == (base + VersionsIn(seen))[k := r.version]
  {
  }

  lemma OneMoreValue(shown: map<Key, string>, seen: map<Key, Row>, k: Key, r: Row)
    ensures shown + ValuesIn(seen[k := r]) == (shown + ValuesIn(seen))[k := r.value]
  {
  }

  lemma OneMoreRetry(sets: map<Key, string>, seen: map<Key, Row>, k: Key, r: Row)
    ensures Retried(sets, seen[k := r]) == if k in sets then Retried(sets, seen)[k := sets[k]] else Retried(sets, seen)
  {
  }

  lemma NoConflictYet(base: map<Key, nat>, shown: map<Key, string>, sets: map<Key, string>, all: map<Key, Row>)
    ensures all - all.Keys == map[] && base + VersionsIn(map[]) == base && shown + ValuesIn(map[]) == shown && Retried(sets, map[]) == map[]
  {
  }

  /** Rows are independent: serving one more key changes its own row, or reports its own conflict. */
  lemma OneMoreRow(server: map<Key, Row>, seen: map<Key, string>, expected: map<Key, nat>, k: Key, v: string)
    requires k !in seen
    ensures var rows := PutSets(server, seen, expected);
            && (k in rows <==> k in server) && (k in rows ==> rows[k] == server[k])
            && PutSets(server, seen[k := v], expected) == if Accepts(server, k, expected) then rows[k := Row(v, NewVersion(server, k))] else rows
  {
  }

  lemma OneMoreAnswer(server: map<Key, Row>, seen: map<Key, string>, expected: map<Key, nat>, k: Key, v: string)
    requires k !in seen
    ensures VersionsOf(server, seen[k := v], expected) ==
            if Accepts(server, k, expected) then VersionsOf(server, seen, expected)[k := NewVersion(server, k)] else VersionsOf(server, seen, expected)
  {
  }

  lemma OneMoreRefusal(server: map<Key, Row>, seen: map<Key, string>, expected: map<Key, nat>, k: Key, v: string)
    requires k !in seen
    ensures Conflicts(server, seen[k := v], expected) ==
            if Accepts(server, k, expected) then Conflicts(server, seen, expected) else Conflicts(server, seen, expected)[k := server[k]]
  {
  }

  class BrowserStore {
    var hydrated: bool
    var cache: map<Key, string>
    var versions: map<Key, nat>
    var dirtySets: map<Key, string>
    var dirtyDeletes: set<Key>
    var flushTimer: Option<nat>
    var retryDelay: nat

    ghost function View(): Client
      reads this
    {
      Client(hydrated, cache, versions, Batch(dirtySets, dirtyDeletes), flushTimer, retryDelay)
    }

    constructor ()
      ensures View() == Boot(map[], {}).client
    {
      hydrated, cache, versions, dirtySets, dirtyDeletes, flushTimer, retryDelay := false, map[], map[], map[], {}, None, 0;
    }

    method SetItemNow(k: Key, v: string)
      modifies this
      ensures View() == if old(hydrated) then Save(old(View()), k, v) else old(View())
    {
      if !hydrated { return; }
      cache := cache[k := v];
      dirtySets := dirtySets[k := v];
      dirtyDeletes := dirtyDeletes - {k};
      flushTimer := Some(DEBOUNCE_MS);
    }

    method RemoveItemNow(k: Key)
      modifies this
      ensures View() == if old(hydrated) then Store.Remove(old(View()), k) else old(View())
    {
      if !hydrated { return; }
      cache := cache - {k};
      dirtySets := dirtySets - {k};
      dirtyDeletes := dirtyDeletes + {k};
      flushTimer := Some(DEBOUNCE_MS);
    }

    /** The queue is emptied before its request goes out. */
    method TakeBatch() returns (sets: map<Key, string>, deletes: set<Key>, expected: map<Key, nat>)
      modifies this
      ensures Batch(sets, deletes) == old(View()).dirty && expected == VersionsFor(versions, sets)
      ensures View() == old(View()).(dirty := Empty(), timer := None)
    {
      sets, deletes := dirtySets, dirtyDeletes;
      dirtySets, dirtyDeletes, flushTimer := map[], {}, None;
      expected := map[];
      var todo := sets.Keys;
      while todo != {}
        invariant todo <= sets.Keys
        invariant expected == map k | k in versions && k in sets && k !in todo :: versions[k]
        decreases todo
      {
        var k :| k in todo;
        if k in versions { expected := expected[k := versions[k]]; }
        todo := todo - {k};
      }
    }

    method RequeueBatch(sets: map<Key, string>, deletes: set<Key>)
      modifies this`dirtySets, this`dirtyDeletes
      ensures View() == old(View()).(dirty := Requeue(old(View()).dirty, Batch(sets, deletes)))
    {
      var was := dirtySets;
      var todo := sets.Keys;
      while todo != {}
        invariant todo <= sets.Keys
        invariant dirtySets == (map k | k in sets && k !in todo :: sets[k]) + was
        invariant dirtyDeletes == old(dirtyDeletes)
        decreases todo
      {
        var k :| k in todo;
        if k !in dirtySets { dirtySets := dirtySets[k := sets[k]]; }
        todo := todo - {k};
      }
      assert (map k | k in sets && k !in todo :: sets[k]) == sets;
      dirtyDeletes := dirtyDeletes + deletes;
    }

    method ScheduleRetryNow()
      modifies this`retryDelay, this`flushTimer
      ensures View() == ScheduleRetry(old(View()))
    {
      retryDelay := if retryDelay == 0 then RETRY_MIN_MS else if 2 * retryDelay < RETRY_MAX_MS then 2 * retryDelay else RETRY_MAX_MS;
      flushTimer := Some(retryDelay);
    }

    /** Base ourselves on their rows, and collect our own edits of those keys. */
    method TakeTheirs(sets: map<Key, string>, conflicts: map<Key, Row>) returns (retry: map<Key, string>)
      modifies this`versions, this`cache
      ensures retry == Retried(sets, conflicts)
      ensures versions == old(versions) + VersionsIn(conflicts) && cache == old(cache) + ValuesIn(conflicts)
    {
      ghost var base, shown := versions, cache;
      ghost var seen: map<Key, Row> := map[];
      retry := map[];
      var todo := conflicts.Keys;
      NoConflictYet(base, shown, sets, conflicts);
      while todo != {}
        invariant todo <= conflicts.Keys && seen == conflicts - todo
        invariant versions == base + VersionsIn(seen)
        invariant cache == shown + ValuesIn(seen)
        invariant retry == Retried(sets, seen)
        decreases todo
      {
        var k :| k in todo;
        OneMoreDone(conflicts, todo, k);
        OneMoreVersion(base, seen, k, conflicts[k]);
        OneMoreValue(shown, seen, k, conflicts[k]);
        OneMoreRetry(sets, seen, k, conflicts[k]);
        seen := seen[k := conflicts[k]];
        versions := versions[k := conflicts[k].version];
        cache := cache[k := conflicts[k].value];
        if k in sets { retry := retry[k := sets[k]]; }
        todo := todo - {k};
      }
      assert seen == conflicts;
    }

    /** Another writer was there first: take over what the server has, and queue our edits again. */
    method OnVersionConflict(sets: map<Key, string>, deletes: set<Key>, conflicts: map<Key, Row>, applied: map<Key, nat>)
      modifies this
      ensures View() == OnConflict(old(View()), Batch(sets, deletes), conflicts, applied)
    {
      versions := versions + applied;
      var retry := TakeTheirs(sets, conflicts);
      if retry != map[] {
        RequeueBatch(retry, {});
        ScheduleRetryNow();
      }
    }

    method OnAnswer(sets: map<Key, string>, deletes: set<Key>, r: Reply)
      modifies this
      ensures View() == OnReply(old(View()), Batch(sets, deletes), r)
    {
      match r {
        case Done => retryDelay := 0;
        case Conflicted(cs, vs) => OnVersionConflict(sets, deletes, cs, vs);
      }
    }

    /** A 429, a server error or no network: nothing of the batch is given up. */
    method OnRequestFailed(sets: map<Key, string>, deletes: set<Key>)
      modifies this
      ensures View() == OnFailure(old(View()), Batch(sets, deletes))
    {
      RequeueBatch(sets, deletes);
      ScheduleRetryNow();
    }
  }

  /** The write route: key by key, each row only if its version still matches; then the removals. */
  method PutState(server: map<Key, Row>, sets: map<Key, string>, deletes: set<Key>, expected: map<Key, nat>)
    returns (after: map<Key, Row>, reply: Reply)
    ensures after == PutSets(server, sets, expected) - deletes
    ensures reply == ReplyOf(server, sets, expected)
  {
    var rows := server;
    var versions: map<Key, nat> := map[];
    var conflicts: map<Key, Row> := map[];
    ghost var seen: map<Key, string> := map[];
    var todo := sets.Keys;
    while todo != {}
      invariant todo <= sets.Keys && seen == sets - todo
      invariant rows == PutSets(server, seen, expected)
      invariant versions == VersionsOf(server, seen, expected) && conflicts == Conflicts(server, seen, expected)
      decreases todo
    {
      var k :| k in todo;
      OneMoreDone(sets, todo, k);
      OneMoreRow(server, seen, expected, k, sets[k]);
      OneMoreAnswer(server, seen, expected, k, sets[k]);
      OneMoreRefusal(server, seen, expected, k, sets[k]);
      if k !in rows {
        rows := rows[k := Row(sets[k], 1)];
        versions := versions[k := 1];
      } else if k !in expected || rows[k].version == expected[k] {
        rows := rows[k := Row(sets[k], rows[k].version + 1)];
        versions := versions[k := rows[k].version];
      } else {
        conflicts := conflicts[k := rows[k]];
      }
      seen := seen[k := sets[k]];
      todo := todo - {k};
    }
    assert seen == sets;
    after := rows - deletes;
    reply := if conflicts == map[] then Done else Conflicted(conflicts, versions);
  }
}
