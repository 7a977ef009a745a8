/**
 The bounded-concurrency pool: calls are started in order, a new one whenever one completes, in
 whatever order they do; one failure does not fail the batch.
 */
module Pool {
  import opened Numbers
  import opened Options

  datatype Outcome<V, E> = Fulfilled(value: V) | Rejected(error: E)

  /** `inFlight`: started and not completed. `started`, `progress` and `resolved` record the calls made and the callbacks. */
  datatype State<V, E> = State(
    size: nat, width: nat, next: nat, done: nat, out: seq<Option<Outcome<V, E>>>,
    inFlight: set<nat>, started: seq<nat>, progress: seq<nat>, resolved: nat)

  function Width(limit: int, size: nat): nat {
    var wanted := Min(if limit == 0 then 1 else limit, size);
    if wanted < 1 then 1 else wanted
  }

  function Pump<V, E>(s: State<V, E>): State<V, E> {
    if s.next >= s.size then s
    else s.(next := s.next + 1, inFlight := s.inFlight + {s.next}, started := s.started + [s.next])
  }

  function PumpTimes<V, E>(s: State<V, E>, times: nat): State<V, E> {
    if times == 0 then s else Pump(PumpTimes(s, times - 1))
  }

  function Fresh<V, E>(limit: int, size: nat): State<V, E> {
    State(size, Width(limit, size), 0, 0, seq(size, _ => None), {}, [], [], if size == 0 then 1 else 0)
  }

  function Started<V, E>(limit: int, size: nat): State<V, E> {
    if size == 0 then Fresh(limit, size) else PumpTimes(Fresh(limit, size), Width(limit, size))
  }

  datatype Event<V, E> = Completes(index: nat, outcome: Outcome<V, E>)

  /** Only a call in flight can complete. */
  function Step<V, E>(s: State<V, E>, e: Event<V, E>): State<V, E> {
    if e.index !in s.inFlight || e.index >= |s.out| then s
    else
      var n := s.(out := s.out[e.index := Some(e.outcome)], done := s.done + 1,
                  inFlight := s.inFlight - {e.index}, progress := s.progress + [s.done + 1]);
      if n.done == n.size then n.(resolved := n.resolved + 1) else Pump(n)
  }

  function Run<V, E>(s: State<V, E>, es: seq<Event<V, E>>): State<V, E>
    decreases |es|
  {
    if es == [] then s else Run(Step(s, es[0]), es[1..])
  }

  // ---------- What every run keeps ----------

  ghost predicate Counts<V, E>(s: State<V, E>, width: nat) {
    && |s.out| == s.size && s.done <= s.next <= s.size
    && s.next == Min(s.size, s.done + width)
    && |s.inFlight| == s.next - s.done
    && (s.resolved == if s.done == s.size then 1 else 0)
  }

  /** Each item started once, in order; done exactly when it is started and no longer in flight. */
  ghost predicate Slots<V, E>(s: State<V, E>) {
    && |s.out| == s.size && s.next <= s.size
    && |s.started| == s.next && (forall i | 0 <= i < s.next :: s.started[i] == i)
    && (forall i | i in s.inFlight :: i < s.next)
    && (forall i | 0 <= i < s.size :: s.out[i].Some? <==> i < s.next && i !in s.inFlight)
    && |s.progress| == s.done && (forall i | 0 <= i < s.done :: s.progress[i] == i + 1)
  }

  ghost predicate Sound<V, E>(s: State<V, E>) {
    Counts(s, s.width) && Slots(s) && 1 <= s.width
  }

  lemma PumpKeeps<V, E>(s: State<V, E>, width: nat)
    requires Counts(s, width) && Slots(s) && s.done < s.size
    ensures Counts(Pump(s), width + 1) && Slots(Pump(s))
    ensures Pump(s).done == s.done && Pump(s).size == s.size && Pump(s).width == s.width
  {
    assert s.next !in s.inFlight;
  }

  lemma FreshKeeps<V, E>(limit: int, size: nat)
    ensures Counts(Fresh<V, E>(limit, size), 0) && Slots(Fresh<V, E>(limit, size))
  {
  }

  lemma {:induction false} PumpingKeeps<V, E>(s: State<V, E>, times: nat)
    requires Counts(s, 0) && Slots(s) && s.done < s.size
    ensures var r := PumpTimes(s, times);
            Counts(r, times) && Slots(r) && r.done == s.done && r.size == s.size && r.width == s.width
  {
    if times > 0 {
      var before := PumpTimes(s, times - 1);
      PumpingKeeps(s, times - 1);
      PumpKeeps(before, times - 1);
    }
  }

  lemma StartIsSound<V, E>(limit: int, size: nat)
    ensures Sound(Started<V, E>(limit, size))
  {
    FreshKeeps<V, E>(limit, size);
    if size > 0 { PumpingKeeps(Fresh<V, E>(limit, size), Width(limit, size)); }
  }

  lemma StepIsSound<V, E>(s: State<V, E>, e: Event<V, E>)
    requires Sound(s)
    ensures Sound(Step(s, e))
  {
    if e.index in s.inFlight {
      var rest := s.inFlight - {e.index};
      assert |rest| == |s.inFlight| - 1;
      assert s.next !in rest;
      if s.done + 1 < s.size && s.next < s.size {
        assert |rest + {s.next}| == |s.inFlight|;
      }
    }
  }

  /**
   In every order of completion: each item is started once and in order, the calls in flight are as many
   as the width allows of the items not done, and the batch resolves once, when all are done.
   */
  lemma {:induction false} EveryOrderIsSound<V, E>(s: State<V, E>, es: seq<Event<V, E>>)
    requires Sound(s)
    ensures var r := Run(s, es);
            && Sound(r) && r.size == s.size && r.width == s.width
            && |r.inFlight| == Min(s.width, s.size - r.done)
            && (r.resolved == 1 <==> forall i | 0 <= i < r.size :: r.out[i].Some?)
    decreases |es|
  {
    if es != [] {
      StepIsSound(s, es[0]);
      EveryOrderIsSound(Step(s, es[0]), es[1..]);
    } else {
      AllDone(s);
    }
  }

  /** As many calls as the limit says, and one at least. */
  function Calls(limit: int): nat {
    if limit < 1 then 1 else limit
  }

  /** The calls in flight are as many as the limit allows of the items not done, and those started so many more than the done. */
  ghost predicate Limited<V, E>(r: State<V, E>, limit: int) {
    r.done <= r.size && |r.inFlight| == Min(Calls(limit), r.size - r.done) && |r.started| == Min(r.size, r.done + Calls(limit))
  }

  /**
   The limit is kept and used: whatever completes in whatever order, the calls in flight are never more than the
   limit, one if it is zero or less, and fewer only when fewer items are left.
   */
  lemma LimitIsKept<V, E>(limit: int, size: nat, es: seq<Event<V, E>>)
    ensures Limited(Run(Started<V, E>(limit, size), es), limit) && Run(Started<V, E>(limit, size), es).size == size
  {
    StartIsSound<V, E>(limit, size);
    StartedIsWide<V, E>(limit, size);
    RunIsLimited(Started<V, E>(limit, size), es, limit);
  }

  lemma RunIsSound<V, E>(s: State<V, E>, es: seq<Event<V, E>>)
    requires Sound(s)
    ensures Sound(Run(s, es)) && Run(s, es).size == s.size && Run(s, es).width == s.width
  {
    EveryOrderIsSound(s, es);
  }

  lemma RunIsLimited<V, E>(s: State<V, E>, es: seq<Event<V, E>>, limit: int)
    requires Sound(s) && s.width == Width(limit, s.size)
    ensures Limited(Run(s, es), limit) && Run(s, es).size == s.size
  {
    RunIsSound(s, es);
    InFlightIsLimited(Run(s, es), limit);
  }

  lemma InFlightIsLimited<V, E>(r: State<V, E>, limit: int)
    requires Sound(r) && r.width == Width(limit, r.size)
    ensures Limited(r, limit)
  {
    InFlightIsWide(r);
    WidthIsLimit(limit, r.size, r.done);
  }

  lemma InFlightIsWide<V, E>(s: State<V, E>)
    requires Sound(s)
    ensures s.done <= s.size && |s.inFlight| == Min(s.width, s.size - s.done) && |s.started| == Min(s.size, s.done + s.width)
  {
  }

  lemma WidthIsLimit(limit: int, size: nat, done: nat)
    requires done <= size
    ensures Min(Width(limit, size), size - done) == Min(Calls(limit), size - done)
    ensures Min(size, done + Width(limit, size)) == Min(size, done + Calls(limit))
  {
  }

  lemma StartedIsWide<V, E>(limit: int, size: nat)
    ensures Started<V, E>(limit, size).width == Width(limit, size) && Started<V, E>(limit, size).size == size
  {
    if size > 0 {
      FreshKeeps<V, E>(limit, size);
      PumpingKeeps(Fresh<V, E>(limit, size), Width(limit, size));
    }
  }

  lemma AllDone<V, E>(s: State<V, E>)
    requires Sound(s)
    ensures s.done == s.size <==> forall i | 0 <= i < s.size :: s.out[i].Some?
  {
    if s.done < s.size {
      assert |s.inFlight| > 0;
      var i :| i in s.inFlight;
      assert s.out[i].None?;
    } else {
      assert s.inFlight == {};
    }
  }

  // ---------- Results at their index ----------

  /** The outcome of item `i`: that of its first completion. */
  function OutcomeOf<V, E>(es: seq<Event<V, E>>, i: nat): Option<Outcome<V, E>> {
    if es == [] then None else if es[0].index == i then Some(es[0].outcome) else OutcomeOf(es[1..], i)
  }

  /** A completed slot never changes, and is filled with what its own call came to, kept or failed. */
  lemma {:induction false} ResultsAtTheirIndex<V, E>(s: State<V, E>, es: seq<Event<V, E>>, i: nat)
    requires Sound(s) && i < s.size
    ensures var r := Run(s, es);
            && i < |r.out|
            && (s.out[i].Some? ==> r.out[i] == s.out[i])
            && (s.out[i].None? && i in s.inFlight ==> r.out[i] == OutcomeOf(es, i))
    decreases |es|
  {
    if es != [] {
      StepIsSound(s, es[0]);
      ResultsAtTheirIndex(Step(s, es[0]), es[1..], i);
    }
  }

  /** How many of the completions were of calls in flight. */
  function Effective<V, E>(s: State<V, E>, es: seq<Event<V, E>>): nat
    decreases |es|
  {
    if es == [] then 0 else (if es[0].index in s.inFlight then 1 else 0) + Effective(Step(s, es[0]), es[1..])
  }

  /** The batch resolves with the last of as many completions as there are items, and has one ready for each until then. */
  lemma {:induction false} ResolvesWithTheLast<V, E>(s: State<V, E>, es: seq<Event<V, E>>)
    requires Sound(s)
    ensures Run(s, es).done == s.done + Effective(s, es) <= s.size
    ensures s.done + Effective(s, es) == s.size <==> Run(s, es).resolved == 1
    ensures s.done + Effective(s, es) < s.size ==> Run(s, es).inFlight != {}
    decreases |es|
  {
    if es != [] {
      StepIsSound(s, es[0]);
      ResolvesWithTheLast(Step(s, es[0]), es[1..]);
    } else if s.done < s.size {
      assert |s.inFlight| > 0;
    }
  }

  /** The pool's variables. */
  class Runner<V(0), E(0)> {
    const size: nat
    const width: nat
    var out: array<Option<Outcome<V, E>>>
    var next: nat
    var done: nat
    ghost var inFlight: set<nat>
    ghost var started: seq<nat>
    ghost var progress: seq<nat>
    ghost var resolved: nat

    ghost function View(): State<V, E>
      reads this, out
    {
      State(size, width, next, done, out[..], inFlight, started, progress, resolved)
    }

    /** The pool starts its first calls at once. */
    constructor (limit: int, items: nat)
      ensures fresh(out) && View() == Started(limit, items)
    {
      size := items;
      var wanted := Min(if limit == 0 then 1 else limit, items);
      width := if wanted < 1 then 1 else wanted;
      out := new Option<Outcome<V, E>>[items](_ => None);
      next, done := 0, 0;
      inFlight, started, progress, resolved := {}, [], [], if items == 0 then 1 else 0;
      new;
      assert View() == Fresh(limit, items);
      if items > 0 {
        ghost var slots := out;
        for w := 0 to width
          invariant out == slots
          invariant View() == PumpTimes(Fresh(limit, items), w)
        {
          PumpNext();
        }
      }
    }

    method PumpNext()
      modifies this`next, this`inFlight, this`started
      ensures View() == Pump(old(View()))
    {
      if next >= size { return; }
      inFlight := inFlight + {next};
      started := started + [next];
      next := next + 1;
    }

    /** A call settled; `ok` or not, its result goes to its own place. */
    method Settle(i: nat, outcome: Outcome<V, E>)
      requires Sound(View()) && i in inFlight
      modifies this, out
      ensures out == old(out) && Sound(View()) && View() == Step(old(View()), Completes(i, outcome))
    {
      StepIsSound(View(), Completes(i, outcome));
      out[i] := Some(outcome);
      done := done + 1;
      inFlight := inFlight - {i};
      progress := progress + [done];
      if done == size { resolved := resolved + 1; } else { PumpNext(); }
    }
  }
}
