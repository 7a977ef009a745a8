/**
 What the playback queue does with every chunk it is given: when each is played and for how long, which is stopped,
 and what it reports of the run.
 */
module PlaybackMeaning {
  import opened Options
  import opened Playback

  function Pushes(es: seq<Event>): nat {
    if es == [] then 0 else Pushes(es[..|es| - 1]) + if es[|es| - 1].Pushed? then 1 else 0
  }

  function Elapsed(es: seq<Event>): real {
    if es == [] then 0.0 else Elapsed(es[..|es| - 1]) + if es[|es| - 1].Passes? then es[|es| - 1].seconds else 0.0
  }

  lemma {:induction false} RunSnoc(q: Queue, es: seq<Event>, e: Event)
    ensures Run(q, es + [e]) == Step(Run(q, es), e)
    decreases |es|
  {
    if es == [] {
      assert [] + [e] == [e] && [e][1..] == [];
      assert Run(Step(q, e), []) == Step(q, e);
    } else {
      assert (es + [e])[0] == es[0] && (es + [e])[1..] == es[1..] + [e];
      RunSnoc(Step(q, es[0]), es[1..], e);
    }
  }

  /** Time passes as it does, and every chunk that is pushed is scheduled, once. */
  lemma {:induction false} EveryPushIsScheduled(q: Queue, es: seq<Event>)
    ensures |Run(q, es).all| == |q.all| + Pushes(es)
    ensures Run(q, es).now == q.now + Elapsed(es)
  {
    if es != [] {
      var init, e := es[..|es| - 1], es[|es| - 1];
      assert es == init + [e];
      EveryPushIsScheduled(q, init);
      RunSnoc(q, init, e);
    }
  }

  lemma StepKeepsTimes(q: Queue, e: Event, i: nat)
    requires i < |q.all|
    ensures var n := Step(q, e);
            && i < |n.all| && n.all[i].at == q.all[i].at && n.all[i].end == q.all[i].end
            && (n.all[i].stopped == if e.Flushed? && i in q.sources then Some(q.now) else q.all[i].stopped)
  {
  }

  lemma {:induction false} RunKeepsTimes(q: Queue, es: seq<Event>, i: nat)
    requires i < |q.all|
    ensures var r := Run(q, es); i < |r.all| && r.all[i].at == q.all[i].at && r.all[i].end == q.all[i].end
    ensures (forall e | e in es :: !e.Flushed?) ==> Run(q, es).all[i].stopped == q.all[i].stopped
    decreases |es|
  {
    if es != [] {
      StepKeepsTimes(q, es[0], i);
      RunKeepsTimes(Step(q, es[0]), es[1..], i);
    }
  }

  /**
   A chunk is played for as long as it lasts, two hundredths of a second after it came at the soonest and where the one
   before it ends; and to its end, if no barge-in comes.
   */
  lemma PlayedAsPushed(q: Queue, d: real, es: seq<Event>)
    requires Sound(q) && d >= 0.0
    ensures var r, n := Run(Push(q, d), es), |q.all|;
            && n < |r.all| && r.all[n].end - r.all[n].at == d && r.all[n].at >= q.now + 0.02
            && (r.all[n].at == q.now + 0.02 || (n > 0 && q.nextAt != 0.0 && r.all[n].at == q.all[n - 1].end) || (q.nextAt == 0.0 && r.all[n].at == 0.0))
            && ((forall e | e in es :: !e.Flushed?) ==> HeardUntil(r.all[n]) == r.all[n].end)
  {
    RunKeepsTimes(Push(q, d), es, |q.all|);
  }

  /** What is over is let go of when that is reported, and nothing else is. */
  lemma OverIsLetGo(q: Queue, index: nat)
    requires Sound(q) && index < |q.sources|
    ensures var n := Step(q, SourceEnds(index));
            && n == q.(sources := n.sources)
            && if q.all[q.sources[index]].end <= q.now then multiset(n.sources) == multiset(q.sources) - multiset{q.sources[index]}
               else n.sources == q.sources
  {
    assert q.sources == q.sources[..index] + [q.sources[index]] + q.sources[index + 1..];
  }

  /** A barge-in stops exactly what is not over, and the schedule begins anew. */
  lemma BargeInStopsAll(q: Queue)
    requires Sound(q)
    ensures var n := Step(q, Flushed);
            && n.sources == [] && n.nextAt == 0.0 && n.lastEnd == 0.0 && n.now == q.now && |n.all| == |q.all|
            && forall i | 0 <= i < |q.all| ::
                 n.all[i] == if i in q.sources then Chunk(q.all[i].at, q.all[i].end, Some(q.now)) else q.all[i]
  {
  }

  // ---------- The run ----------

  /** How many chunks have come since the last turn's end or barge-in. */
  function SinceEnd(first: nat, es: seq<Event>): nat {
    if es == [] then first
    else if es[|es| - 1].Flushed? || es[|es| - 1].RunEnded? then 0
    else SinceEnd(first, es[..|es| - 1]) + if es[|es| - 1].Pushed? then 1 else 0
  }

  /** The run's count, exactly; and with none since the last end nothing is reported as left to play. */
  lemma {:induction false} RunIsCounted(q: Queue, es: seq<Event>)
    requires Sound(q) && forall i | 0 <= i < |es| :: Physical(es[i])
    ensures Run(q, es).runPushes == SinceEnd(q.runPushes, es)
    ensures SinceEnd(q.runPushes, es) == 0 ==> RemainingMs(Run(q, es)) == 0
  {
    RunIsSound(q, es);
    if es != [] {
      var init, e := es[..|es| - 1], es[|es| - 1];
      assert es == init + [e];
      RunIsCounted(q, init);
      RunSnoc(q, init, e);
    }
  }
}
