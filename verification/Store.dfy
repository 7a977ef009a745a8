/**
 The browser's write-back store against the server's versioned one. Edits are cached and queued; one
 request at a time carries a batch, which the server applies key by key where the version still
 matches. Requests can be refused, fail, or fail after they were applied.
 */
module Store {
  import opened Options

  type Key = string

  datatype Row = Row(value: string, version: nat)

  datatype Batch = Batch(sets: map<Key, string>, deletes: set<Key>)

  datatype Reply = Done | Conflicted(conflicts: map<Key, Row>, versions: map<Key, nat>)

  /** A request on its way; `reply` once the server has dealt with it. */
  datatype Flight = Flight(batch: Batch, expected: map<Key, nat>, reply: Option<Reply>)

  datatype Client = Client(
    hydrated: bool, cache: map<Key, string>, versions: map<Key, nat>, dirty: Batch, timer: Option<nat>, retryDelay: nat)

  /**
   History: each key's last local edit (none for a removal), the last value of ours the server
   applied, the last one reported as refused, the keys a conflict has named since their last edit,
   and how many requests were sent.
   */
  datatype History = History(
    last: map<Key, Option<string>>, applied: map<Key, string>, rejected: map<Key, string>, overruled: set<Key>, sent: nat)

  /** `denied`: the keys the server's scoping drops from this caller's writes. */
  datatype World = World(client: Client, flights: seq<Flight>, server: map<Key, Row>, denied: set<Key>, hist: History)

  // ---------- The server ----------

  /** The row is new, or the write does not say which version it expects, or it says the right one. */
  predicate Accepts(server: map<Key, Row>, k: Key, expected: map<Key, nat>) {
    k !in server || k !in expected || server[k].version == expected[k]
  }

  function NewVersion(server: map<Key, Row>, k: Key): nat {
    if k in server then server[k].version + 1 else 1
  }

  function Permitted(b: Batch, denied: set<Key>): Batch {
    Batch(b.sets - denied, b.deletes - denied)
  }

  function PutSets(server: map<Key, Row>, sets: map<Key, string>, expected: map<Key, nat>): map<Key, Row> {
    map k | k in server.Keys + sets.Keys ::
      if k in sets && Accepts(server, k, expected) then Row(sets[k], NewVersion(server, k)) else server[k]
  }

  function Conflicts(server: map<Key, Row>, sets: map<Key, string>, expected: map<Key, nat>): map<Key, Row> {
    map k | k in sets && !Accepts(server, k, expected) :: server[k]
  }

  function AppliedOf(server: map<Key, Row>, sets: map<Key, string>, expected: map<Key, nat>): map<Key, string> {
    map k | k in sets && Accepts(server, k, expected) :: sets[k]
  }

  function VersionsOf(server: map<Key, Row>, sets: map<Key, string>, expected: map<Key, nat>): map<Key, nat> {
    map k | k in sets && Accepts(server, k, expected) :: NewVersion(server, k)
  }

  function ReplyOf(server: map<Key, Row>, sets: map<Key, string>, expected: map<Key, nat>): Reply {
    var cs := Conflicts(server, sets, expected);
    if cs == map[] then Done else Conflicted(cs, VersionsOf(server, sets, expected))
  }

  // ---------- The browser ----------

  const DEBOUNCE_MS: nat := 800
  const RETRY_MIN_MS: nat := 1000
  const RETRY_MAX_MS: nat := 30000

  function NextDelay(d: nat): nat {
    if d == 0 then RETRY_MIN_MS else if 2 * d < RETRY_MAX_MS then 2 * d else RETRY_MAX_MS
  }

  function Empty(): Batch {
    Batch(map[], {})
  }

  /** Unsaved work goes back on the queue, newer edits win. */
  function Requeue(dirty: Batch, b: Batch): Batch {
    Batch(b.sets + dirty.sets, dirty.deletes + b.deletes)
  }

  function ScheduleRetry(c: Client): Client {
    c.(retryDelay := NextDelay(c.retryDelay), timer := Some(NextDelay(c.retryDelay)))
  }

  function VersionsFor(versions: map<Key, nat>, sets: map<Key, string>): map<Key, nat> {
    map k | k in versions && k in sets :: versions[k]
  }

  function Save(c: Client, k: Key, v: string): Client {
    c.(cache := c.cache[k := v], dirty := Batch(c.dirty.sets[k := v], c.dirty.deletes - {k}), timer := Some(DEBOUNCE_MS))
  }

  function Remove(c: Client, k: Key): Client {
    c.(cache := c.cache - {k}, dirty := Batch(c.dirty.sets - {k}, c.dirty.deletes + {k}), timer := Some(DEBOUNCE_MS))
  }

  function VersionsIn(cs: map<Key, Row>): map<Key, nat> {
    map k | k in cs :: cs[k].version
  }

  function ValuesIn(cs: map<Key, Row>): map<Key, string> {
    map k | k in cs :: cs[k].value
  }

  function Retried(sets: map<Key, string>, cs: map<Key, Row>): map<Key, string> {
    map k | k in cs && k in sets :: sets[k]
  }

  /** Base ourselves on what the server has, and queue our edits of those keys again. */
  function OnConflict(c: Client, b: Batch, cs: map<Key, Row>, versions: map<Key, nat>): Client {
    var retry := Retried(b.sets, cs);
    var n := c.(versions := c.versions + versions + VersionsIn(cs), cache := c.cache + ValuesIn(cs));
    if retry == map[] then n else ScheduleRetry(n.(dirty := Requeue(c.dirty, Batch(retry, {}))))
  }

  /** On success the versions the server reports are not taken over. */
  function OnReply(c: Client, b: Batch, r: Reply): Client {
    match r
    case Done => c.(retryDelay := 0)
    case Conflicted(cs, vs) => OnConflict(c, b, cs, vs)
  }

  function OnFailure(c: Client, b: Batch): Client {
    ScheduleRetry(c.(dirty := Requeue(c.dirty, b)))
  }

  function Loaded(server: map<Key, Row>): Client {
    Client(true, ValuesIn(server), VersionsIn(server), Empty(), None, 0)
  }

  // ---------- Steps ----------

  datatype Event =
    | Hydrate
    | SetItem(key: Key, value: string)
    | RemoveItem(key: Key)
    | Flush
    | Serve(index: nat)
    | Deliver(index: nat)
    | Fail(index: nat)
    | Refuse(index: nat)
    | OthersWrite(key: Key, value: string)

  function Without(fs: seq<Flight>, i: nat): seq<Flight>
    requires i < |fs|
  {
    fs[..i] + fs[i + 1..]
  }

  function DoFlush(w: World): World {
    var c := w.client;
    if c.dirty == Empty() then w.(client := c.(timer := None))
    else World(c.(dirty := Empty(), timer := None), w.flights + [Flight(c.dirty, VersionsFor(c.versions, c.dirty.sets), None)],
               w.server, w.denied, w.hist.(sent := w.hist.sent + 1))
  }

  function DoServe(w: World, i: nat): World
    requires i < |w.flights|
  {
    var f := w.flights[i];
    var p := Permitted(f.batch, w.denied);
    World(w.client, w.flights[i := f.(reply := Some(ReplyOf(w.server, p.sets, f.expected)))],
          PutSets(w.server, p.sets, f.expected) - p.deletes, w.denied,
          w.hist.(applied := w.hist.applied + AppliedOf(w.server, p.sets, f.expected)))
  }

  function DoDeliver(w: World, i: nat): World
    requires i < |w.flights| && w.flights[i].reply.Some?
  {
    var f := w.flights[i];
    var r := f.reply.value;
    World(OnReply(w.client, f.batch, r), Without(w.flights, i), w.server, w.denied,
          w.hist.(overruled := w.hist.overruled + if r.Conflicted? then r.conflicts.Keys else {}))
  }

  function Step(w: World, e: Event): World {
    match e
    case Hydrate => if w.client.hydrated then w else w.(client := Loaded(w.server))
    case SetItem(k, v) =>
      if !w.client.hydrated then w
      else w.(client := Save(w.client, k, v),
              hist := w.hist.(last := w.hist.last[k := Some(v)], overruled := w.hist.overruled - {k}))
    case RemoveItem(k) =>
      if !w.client.hydrated then w
      else w.(client := Remove(w.client, k), hist := w.hist.(last := w.hist.last[k := None]))
    case Flush => DoFlush(w)
    case Serve(i) => if i < |w.flights| && w.flights[i].reply.None? then DoServe(w, i) else w
    case Deliver(i) => if i < |w.flights| && w.flights[i].reply.Some? then DoDeliver(w, i) else w
    case Fail(i) =>
      if i < |w.flights| then w.(client := OnFailure(w.client, w.flights[i].batch), flights := Without(w.flights, i)) else w
    case Refuse(i) =>
      if i < |w.flights| && w.flights[i].reply.None?
      then w.(flights := Without(w.flights, i), hist := w.hist.(rejected := w.hist.rejected + w.flights[i].batch.sets))
      else w
    case OthersWrite(k, v) => w.(server := w.server[k := Row(v, NewVersion(w.server, k))])
  }

  function Run(w: World, es: seq<Event>): World
    decreases |es|
  {
    if es == [] then w else Run(Step(w, es[0]), es[1..])
  }

  /** Before the workspace has been loaded. */
  function Boot(server: map<Key, Row>, denied: set<Key>): World {
    World(Client(false, map[], map[], Empty(), None, 0), [], server, denied, History(map[], map[], map[], {}, 0))
  }

  // ---------- Nothing is lost ----------

  /** The last edit of `k` was to set it. */
  predicate IsSet(h: History, k: Key) {
    k in h.last && h.last[k].Some?
  }

  /** Where the last value of `k` is: queued, on its way, saved, or reported as refused. */
  ghost predicate Covered(w: World, k: Key)
    requires IsSet(w.hist, k)
  {
    var v, c, h := w.hist.last[k].value, w.client, w.hist;
    || (k in c.dirty.sets && c.dirty.sets[k] == v)
    || (|w.flights| == 1 && k in w.flights[0].batch.sets && w.flights[0].batch.sets[k] == v)
    || (k in h.applied && h.applied[k] == v)
    || (k in h.rejected && h.rejected[k] == v)
  }

  /** A queued or travelling set of a key is its last edit, unless a newer one is queued; its removal is not under way. */
  ghost predicate Current(w: World, k: Key)
    requires IsSet(w.hist, k)
  {
    var v, c := w.hist.last[k].value, w.client;
    && (k in c.dirty.sets ==> c.dirty.sets[k] == v)
    && k !in c.dirty.deletes
    && (|w.flights| == 1 ==> k !in w.flights[0].batch.deletes)
    && (|w.flights| == 1 && k in w.flights[0].batch.sets && k !in c.dirty.sets ==> w.flights[0].batch.sets[k] == v)
  }

  /** The reply of a request names as conflicts keys of the request, and every other permitted key was applied. */
  ghost predicate Answered(w: World) {
    |w.flights| == 1 && w.flights[0].reply.Some? && w.flights[0].reply.value.Conflicted? ==>
      w.flights[0].reply.value.conflicts.Keys <= w.flights[0].batch.sets.Keys
  }

  ghost predicate Saved(w: World, k: Key)
    requires IsSet(w.hist, k)
  {
    |w.flights| == 1 && w.flights[0].reply.Some? && k in w.flights[0].batch.sets && k !in w.client.dirty.sets ==>
      var r := w.flights[0].reply.value;
      (r.Conflicted? && k in r.conflicts) || (k in w.hist.applied && w.hist.applied[k] == w.hist.last[k].value)
  }

  ghost predicate Safe(w: World) {
    && |w.flights| <= 1
    && Answered(w)
    && forall k | IsSet(w.hist, k) && k !in w.denied :: Covered(w, k) && Current(w, k) && Saved(w, k)
  }

  /** One request at a time, and a key is not set again while its removal is on the way. */
  predicate Orderly(w: World, e: Event) {
    && (e.Flush? ==> w.flights == [])
    && (e.SetItem? && w.flights != [] ==> e.key !in w.flights[0].batch.deletes)
  }

  predicate OrderlyRun(w: World, es: seq<Event>)
    decreases |es|
  {
    es == [] || (Orderly(w, es[0]) && OrderlyRun(Step(w, es[0]), es[1..]))
  }

  lemma EditKeeps(w: World, e: Event)
    requires Safe(w) && Orderly(w, e) && (e.SetItem? || e.RemoveItem? || e.OthersWrite?)
    ensures Safe(Step(w, e))
  {
  }

  /** Loading starts the store afresh, so nothing may have been edited before: the gate sees to that. */
  lemma HydrateKeeps(w: World)
    requires Safe(w) && Gated(w)
    ensures Safe(Step(w, Hydrate))
  {
  }

  lemma FlushKeeps(w: World)
    requires Safe(w) && w.flights == []
    ensures Safe(Step(w, Flush))
  {
    assert Without([Flight(Empty(), map[], None)], 0) == [];
  }

  lemma ServeKeepsKey(w: World, i: nat, k: Key)
    requires |w.flights| == 1 && i == 0 && w.flights[0].reply.None? && IsSet(w.hist, k) && k !in w.denied
    requires Covered(w, k) && Current(w, k)
    ensures var n := DoServe(w, i); Covered(n, k) && Current(n, k) && Saved(n, k)
  {
    var f := w.flights[0];
    var p := Permitted(f.batch, w.denied);
    assert k in f.batch.sets <==> k in p.sets;
    if k in p.sets {
      if Accepts(w.server, k, f.expected) {
        assert AppliedOf(w.server, p.sets, f.expected)[k] == f.batch.sets[k];
      } else {
        assert k in Conflicts(w.server, p.sets, f.expected);
      }
    }
    assert DoServe(w, i).flights == [f.(reply := Some(ReplyOf(w.server, p.sets, f.expected)))];
  }

  lemma ServeKeeps(w: World, i: nat)
    requires Safe(w)
    ensures Safe(Step(w, Serve(i)))
  {
    if i < |w.flights| && w.flights[i].reply.None? {
      forall k | IsSet(w.hist, k) && k !in w.denied
        ensures var n := DoServe(w, i); Covered(n, k) && Current(n, k) && Saved(n, k)
      {
        ServeKeepsKey(w, i, k);
      }
    }
  }

  lemma WithoutOnly(fs: seq<Flight>)
    requires |fs| == 1
    ensures Without(fs, 0) == []
  {
  }

  lemma DeliverKeeps(w: World, i: nat)
    requires Safe(w)
    ensures Safe(Step(w, Deliver(i)))
  {
    if i < |w.flights| {
      WithoutOnly(w.flights);
    }
  }

  lemma FailKeeps(w: World, i: nat)
    requires Safe(w)
    ensures Safe(Step(w, Fail(i)))
  {
    if i < |w.flights| {
      WithoutOnly(w.flights);
    }
  }

  lemma RefuseKeeps(w: World, i: nat)
    requires Safe(w)
    ensures Safe(Step(w, Refuse(i)))
  {
    if i < |w.flights| {
      WithoutOnly(w.flights);
    }
  }

  /** Until the workspace has been loaded nothing is queued, sent or recorded. */
  ghost predicate Gated(w: World) {
    !w.client.hydrated ==>
      w.client.dirty == Empty() && w.flights == [] && w.hist.sent == 0 && w.hist.last == map[] && w.client.timer == None
  }

  lemma StepIsGated(w: World, e: Event)
    requires Gated(w)
    ensures Gated(Step(w, e))
  {
  }

  lemma StepIsSafe(w: World, e: Event)
    requires Safe(w) && Gated(w) && Orderly(w, e)
    ensures Safe(Step(w, e))
  {
    match e
    case Hydrate => HydrateKeeps(w);
    case Flush => FlushKeeps(w);
    case Serve(i) => ServeKeeps(w, i);
    case Deliver(i) => DeliverKeeps(w, i);
    case Fail(i) => FailKeeps(w, i);
    case Refuse(i) => RefuseKeeps(w, i);
    case _ => EditKeeps(w, e);
  }

  /**
   Nothing is lost. Over every orderly run, whatever requests conflict, are refused, fail, or fail after
   they were applied, the last value set for a key is queued, on its way, applied, or reported refused.
   */
  lemma {:induction false} NothingIsLost(w: World, es: seq<Event>)
    requires Safe(w) && Gated(w) && OrderlyRun(w, es)
    ensures Safe(Run(w, es)) && Gated(Run(w, es))
    ensures forall k | IsSet(Run(w, es).hist, k) && k !in Run(w, es).denied :: Covered(Run(w, es), k)
    decreases |es|
  {
    if es != [] {
      StepIsSafe(w, es[0]);
      StepIsGated(w, es[0]);
      NothingIsLost(Step(w, es[0]), es[1..]);
    }
  }

  lemma BootIsSafe(server: map<Key, Row>, denied: set<Key>)
    ensures Safe(Boot(server, denied)) && Gated(Boot(server, denied)) && Scheduled(Boot(server, denied))
  {
  }

  // ---------- The gate, and the timer ----------

  /** What is queued will be flushed. */
  ghost predicate Scheduled(w: World) {
    w.client.dirty != Empty() ==> w.client.timer.Some?
  }

  lemma {:induction false} QueueIsScheduled(w: World, es: seq<Event>)
    requires Scheduled(w)
    ensures Scheduled(Run(w, es))
    decreases |es|
  {
    if es != [] {
      StepIsScheduled(w, es[0]);
      QueueIsScheduled(Step(w, es[0]), es[1..]);
    }
  }

  lemma StepIsScheduled(w: World, e: Event)
    requires Scheduled(w)
    ensures Scheduled(Step(w, e))
  {
  }

  /** Nothing is sent before the workspace has been loaded: whatever is edited or flushed, the server is not touched. */
  lemma {:induction false} NothingSentBeforeHydration(w: World, es: seq<Event>)
    requires Gated(w) && !w.client.hydrated && forall i | 0 <= i < |es| :: !es[i].Hydrate? && !es[i].OthersWrite?
    ensures Run(w, es).hist.sent == 0 && Run(w, es).server == w.server && Run(w, es).client.dirty == Empty()
    decreases |es|
  {
    if es != [] {
      StepIsGated(w, es[0]);
      NothingSentBeforeHydration(Step(w, es[0]), es[1..]);
    }
  }
}
