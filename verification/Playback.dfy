/**
 The playback queue. Each chunk is scheduled against the clock where the one before it ends, so what
 is heard has no seams and no overlaps; a barge-in stops everything at once. Times are in seconds.
 */
module Playback {
  import opened Options

  const FLOOR: real := 0.02

  /** A scheduled chunk, and when it was stopped, if it was. */
  datatype Chunk = Chunk(at: real, end: real, stopped: Option<real>)

  /** `sources` are the positions, in `all`, of the chunks that are not over; `all` is history. */
  datatype Queue = Queue(now: real, sources: seq<nat>, nextAt: real, lastEnd: real, runPushes: nat, all: seq<Chunk>)

  function MaxReal(a: real, b: real): real {
    if a < b then b else a
  }

  function MinReal(a: real, b: real): real {
    if a < b then a else b
  }

  /** Up to when the chunk is heard; not at all if that is no later than its start. */
  function HeardUntil(c: Chunk): real {
    if c.stopped.Some? then MinReal(c.end, c.stopped.value) else c.end
  }

  function StartOf(q: Queue): real {
    MaxReal(q.now + FLOOR, q.nextAt)
  }

  function Push(q: Queue, duration: real): Queue {
    var c := Chunk(StartOf(q), StartOf(q) + duration, None);
    Queue(q.now, q.sources + [|q.all|], c.end, c.end, q.runPushes + 1, q.all + [c])
  }

  function StopAll(all: seq<Chunk>, sources: seq<nat>, now: real): (r: seq<Chunk>)
    ensures |r| == |all|
  {
    seq(|all|, i requires 0 <= i < |all| => if i in sources then all[i].(stopped := Some(now)) else all[i])
  }

  function EndRun(q: Queue): Queue {
    if q.runPushes == 0 then q else q.(runPushes := 0, lastEnd := 0.0)
  }

  function Flush(q: Queue): Queue {
    EndRun(Queue(q.now, [], 0.0, 0.0, q.runPushes, StopAll(q.all, q.sources, q.now)))
  }

  function RoundHalfUp(x: real): int {
    (x + 0.5).Floor
  }

  /** What the queue reports as still to be played, in milliseconds. */
  function RemainingMs(q: Queue): nat {
    if q.lastEnd == 0.0 || RoundHalfUp((q.lastEnd - q.now) * 1000.0) < 0 then 0
    else RoundHalfUp((q.lastEnd - q.now) * 1000.0)
  }

  /** What is really still to be played. */
  function TailMs(q: Queue): nat {
    if q.nextAt == 0.0 || RoundHalfUp((q.nextAt - q.now) * 1000.0) < 0 then 0
    else RoundHalfUp((q.nextAt - q.now) * 1000.0)
  }

  datatype Event =
    | Pushed(duration: real)
    | Flushed
    | RunEnded
    | SourceEnds(index: nat)
    | Passes(seconds: real)

  /** Chunks have a length and time moves on. */
  predicate Physical(e: Event) {
    (e.Pushed? ==> e.duration >= 0.0) && (e.Passes? ==> e.seconds >= 0.0)
  }

  /** The end of a source is reported only when its chunk is over. */
  function Forget(q: Queue, index: nat): Queue {
    if index < |q.sources| && q.sources[index] < |q.all| && q.all[q.sources[index]].end <= q.now
    then q.(sources := q.sources[..index] + q.sources[index + 1..])
    else q
  }

  function Step(q: Queue, e: Event): Queue {
    match e
    case Pushed(d) => Push(q, d)
    case Flushed => Flush(q)
    case RunEnded => EndRun(q)
    case SourceEnds(i) => Forget(q, i)
    case Passes(s) => q.(now := q.now + s)
  }

  function Run(q: Queue, es: seq<Event>): Queue
    decreases |es|
  {
    if es == [] then q else Run(Step(q, es[0]), es[1..])
  }

  function Initial(now: real): Queue {
    Queue(now, [], 0.0, 0.0, 0, [])
  }

  // ---------- No overlap ----------

  /** Nothing is heard over a later chunk. */
  ghost predicate NoOverlap(all: seq<Chunk>) {
    forall i, j {:trigger all[i], all[j]} | 0 <= i < j < |all| :: HeardUntil(all[i]) <= all[j].at
  }

  /** A chunk is listed and lies before `nextAt`, or it is over. */
  ghost predicate Tracked(q: Queue) {
    forall i | 0 <= i < |q.all| ::
      if i in q.sources then q.all[i].end <= q.nextAt && q.all[i].stopped.None? else HeardUntil(q.all[i]) <= q.now
  }

  ghost predicate Sound(q: Queue) {
    && NoOverlap(q.all)
    && Tracked(q)
    && (forall k | 0 <= k < |q.sources| :: q.sources[k] < |q.all|)
    && (q.runPushes == 0 ==> q.lastEnd == 0.0)
    && (q.runPushes > 0 ==> q.lastEnd == q.nextAt)
    && (q.nextAt != 0.0 ==> |q.all| > 0 && q.all[|q.all| - 1].end == q.nextAt)
  }

  lemma PushIsSound(q: Queue, d: real)
    requires Sound(q) && d >= 0.0
    ensures Sound(Push(q, d))
  {
  }

  lemma FlushIsSound(q: Queue)
    requires Sound(q)
    ensures Sound(Flush(q))
    ensures forall c <- Flush(q).all :: HeardUntil(c) <= q.now
  {
    var all := Flush(q).all;
    assert forall i | 0 <= i < |all| :: all[i].at == q.all[i].at && HeardUntil(all[i]) <= HeardUntil(q.all[i]);
  }

  lemma ForgetIsSound(q: Queue, index: nat)
    requires Sound(q)
    ensures Sound(Forget(q, index))
  {
    var n := Forget(q, index);
    if n != q {
      assert q.sources == q.sources[..index] + [q.sources[index]] + q.sources[index + 1..];
      assert forall i <- q.sources :: i in n.sources || i == q.sources[index];
    }
  }

  /** Over every run of pushes, barge-ins, turn ends and time, no chunk is heard over another. */
  lemma {:induction false} RunIsSound(q: Queue, es: seq<Event>)
    requires Sound(q) && forall i | 0 <= i < |es| :: Physical(es[i])
    ensures Sound(Run(q, es))
    decreases |es|
  {
    if es != [] {
      match es[0] {
        case Pushed(d) => PushIsSound(q, d);
        case Flushed => FlushIsSound(q);
        case SourceEnds(i) => ForgetIsSound(q, i);
        case _ =>
      }
      RunIsSound(Step(q, es[0]), es[1..]);
    }
  }

  /** No step lets a chunk be heard longer than before. */
  lemma StepSilences(q: Queue, e: Event, i: nat)
    requires Sound(q) && Physical(e) && i < |q.all|
    ensures Sound(Step(q, e)) && i < |Step(q, e).all| && HeardUntil(Step(q, e).all[i]) <= HeardUntil(q.all[i])
  {
    match e
    case Pushed(d) => PushIsSound(q, d);
    case Flushed => FlushIsSound(q);
    case SourceEnds(k) => ForgetIsSound(q, k);
    case _ =>
  }

  lemma {:induction false} SilencedStays(q: Queue, es: seq<Event>, i: nat)
    requires Sound(q) && i < |q.all| && forall k | 0 <= k < |es| :: Physical(es[k])
    ensures i < |Run(q, es).all| && HeardUntil(Run(q, es).all[i]) <= HeardUntil(q.all[i])
    decreases |es|
  {
    if es != [] {
      StepSilences(q, es[0], i);
      SilencedStays(Step(q, es[0]), es[1..], i);
    }
  }

  /**
   A barge-in silences for good. In every run, and for every barge-in of it, nothing that was pushed before
   is heard after that moment, whatever is pushed, reported over or flushed later.
   */
  lemma {:induction false} BargeInSilences(q: Queue, es: seq<Event>, b: nat, i: nat)
    requires Sound(q) && b < |es| && es[b].Flushed? && forall k | 0 <= k < |es| :: Physical(es[k])
    requires i < |Run(q, es[..b]).all|
    ensures i < |Run(q, es).all| && HeardUntil(Run(q, es).all[i]) <= Run(q, es[..b]).now
    decreases b
  {
    if b == 0 {
      FlushIsSound(q);
      assert Flush(q).all[i] in Flush(q).all;
      SilencedStays(Flush(q), es[1..], i);
    } else {
      assert es[..b][0] == es[0] && es[..b][1..] == es[1..][..b - 1];
      RunIsSound(q, [es[0]]);
      assert Run(q, [es[0]]) == Run(Step(q, es[0]), []);
      BargeInSilences(Step(q, es[0]), es[1..], b - 1, i);
    }
  }

  // ---------- No seams ----------

  /** A chunk follows the last one without a gap exactly when it comes at least the floor before that one ends. */
  lemma GaplessUnlessLate(q: Queue, d: real)
    requires Sound(q) && q.nextAt != 0.0
    ensures var all := Push(q, d).all;
            && all[..|q.all|] == q.all
            && (all[|q.all|].at == q.all[|q.all| - 1].end <==> q.now + FLOOR <= q.all[|q.all| - 1].end)
            && all[|q.all|].at >= q.all[|q.all| - 1].end
  {
  }

  function TotalOf(ds: seq<real>): real {
    if ds == [] then 0.0 else ds[0] + TotalOf(ds[1..])
  }

  function PushAll(q: Queue, ds: seq<real>): Queue
    decreases |ds|
  {
    if ds == [] then q else PushAll(Push(q, ds[0]), ds[1..])
  }

  /** Chunks that arrive together play as one: they end as long after the first starts as they last together. */
  lemma {:induction false} BurstIsOnePiece(q: Queue, ds: seq<real>)
    requires q.nextAt >= q.now + FLOOR && forall i | 0 <= i < |ds| :: ds[i] >= 0.0
    ensures PushAll(q, ds).nextAt == q.nextAt + TotalOf(ds) && PushAll(q, ds).now == q.now
    decreases |ds|
  {
    if ds != [] {
      BurstIsOnePiece(Push(q, ds[0]), ds[1..]);
    }
  }

  // ---------- What is left ----------

  /** The queue knows what is left to play, unless the run was ended while something was still playing. */
  lemma RemainingIsTail(q: Queue)
    requires Sound(q)
    ensures RemainingMs(q) == TailMs(q) <==> q.runPushes > 0 || TailMs(q) == 0
  {
  }

  lemma StopOneMore(all: seq<Chunk>, sources: seq<nat>, k: nat, now: real)
    requires k < |all|
    ensures var before := StopAll(all, sources, now);
            StopAll(all, sources + [k], now) == before[k := before[k].(stopped := Some(now))]
  {
  }

  /** The queue object; `all` is kept as history. */
  class PlaybackQueue {
    var currentTime: real
    var sources: seq<nat>
    var nextAt: real
    var lastEnd: real
    var runPushes: nat
    /** How many chunks there have been; a source is known by its number. */
    var scheduled: nat
    ghost var all: seq<Chunk>

    ghost function View(): Queue
      reads this
    {
      Queue(currentTime, sources, nextAt, lastEnd, runPushes, all)
    }

    ghost predicate Valid()
      reads this
    {
      Sound(View()) && scheduled == |all|
    }

    constructor (now: real)
      ensures View() == Initial(now) && Valid()
    {
      currentTime, sources, nextAt, lastEnd, runPushes, scheduled, all := now, [], 0.0, 0.0, 0, 0, [];
    }

    method PushChunk(duration: real)
      requires Valid() && duration >= 0.0
      modifies this
      ensures View() == Push(old(View()), duration) && Valid()
    {
      PushIsSound(View(), duration);
      var at := MaxReal(currentTime + FLOOR, nextAt);
      runPushes := runPushes + 1;
      nextAt := at + duration;
      lastEnd := nextAt;
      sources, scheduled := sources + [scheduled], scheduled + 1;
      all := all + [Chunk(at, at + duration, None)];
    }

    method CloseRun()
      modifies this`runPushes, this`lastEnd
      ensures View() == EndRun(old(View()))
    {
      if runPushes == 0 { return; }
      runPushes, lastEnd := 0, 0.0;
    }

    /** Barge-in: stop every source that is not over, and forget the schedule. */
    method FlushAll()
      requires Valid()
      modifies this
      ensures View() == Flush(old(View())) && Valid()
      ensures forall c <- all :: HeardUntil(c) <= currentTime
    {
      FlushIsSound(View());
      StopSources();
      sources, nextAt, lastEnd := [], 0.0, 0.0;
      CloseRun();
    }

    method StopSources()
      requires Valid()
      modifies this`all
      ensures all == StopAll(old(all), sources, currentTime)
    {
      for i := 0 to |sources|
        invariant all == StopAll(old(all), sources[..i], currentTime)
      {
        StopOneMore(old(all), sources[..i], sources[i], currentTime);
        assert sources[..i + 1] == sources[..i] + [sources[i]];
        all := all[sources[i] := all[sources[i]].(stopped := Some(currentTime))];
      }
      assert sources[..|sources|] == sources;
    }

    method OnEnded(index: nat)
      requires Valid() && index < |sources| && all[sources[index]].end <= currentTime
      modifies this`sources
      ensures View() == Forget(old(View()), index) && Valid()
    {
      ForgetIsSound(View(), index);
      sources := sources[..index] + sources[index + 1..];
    }
  }
}
