/**
 When a live session ends: on a stop, or inside an event, where the application that is told of a turn's end or
 of the model's rest answers with a stop.
 */
module LiveStops {
  import opened LiveTurn
  import opened LiveTypes
  import opened Options

  predicate Calls(e: Event) {
    e.FrameArrives? || e.CloseTimerFires? || e.IdleTimerFires?
  }

  /** The model comes to rest in the event: by a barge-in, a close with little left to play, or the timer that was waited for. */
  predicate ComesToRest(m: Machine, e: Event) {
    match e
    case FrameArrives(f, env) => StateHeard(m.turn, f) != Idle && (f.interrupted || (Completes(m.turn, f) && env.waitMs < 250))
    case CloseTimerFires(env) => m.turn.closeArmed && Busy(m.turn.state) && Closable(m.turn) && env.waitMs < 250
    case IdleTimerFires(_) => m.turn.idleArmed && Busy(m.turn.state)
    case _ => false
  }

  /** Until the session is stopped, a turn that closes is owed its notice. */
  lemma NoteOwes(m: Machine, f: Frame, env: Env)
    requires !m.closed && !m.notice.owed
    ensures var a := NoteActivity(m, f, env);
            a.closed || a.notice == if Completes(m.turn, f) then Owe(m.notice) else m.notice
  {
    HeardSettles(m, f, env);
    HeardStays(m, f, env);
    var h := Heard(m, f, env);
    assert Closable(h.turn) && f.turnComplete <==> Completes(m.turn, f);
  }

  lemma FrameEnds(m: Machine, f: Frame, env: Env)
    requires !m.closed && !m.notice.owed
    ensures var n := OnFrame(m, f, env);
            n.closed <==> (env.stopsOnIdle && ComesToRest(m, FrameArrives(f, env)))
                          || (env.stopsOnComplete && n.notice.announced > m.notice.announced)
  {
    NoteOwes(m, f, env);
    NoteCloses(m, f, env);
    ActivityStops(m, f, env);
    var a := NoteActivity(m, f, env);
    var b := if f.interrupted then Interrupt(a, env) else a;
    assert b.closed <==> env.stopsOnIdle && ComesToRest(m, FrameArrives(f, env));
    DrainEnds(m, Metered(b, f), env);
  }

  lemma DrainEnds(m: Machine, b: Machine, env: Env)
    requires !m.notice.owed && b.muted == m.muted
    requires b.closed || b.notice == m.notice || b.notice == Owe(m.notice)
    ensures var n := Drain(b, env);
            n.closed <==> b.closed || (env.stopsOnComplete && n.notice.announced > m.notice.announced)
  {
  }

  lemma TimerEnds(m: Machine, e: Event)
    requires !m.closed && !m.notice.owed && (e.CloseTimerFires? || e.IdleTimerFires?)
    ensures var n := Step(m, e);
            n.closed <==> (e.env.stopsOnIdle && ComesToRest(m, e)) || (e.env.stopsOnComplete && n.notice.announced > m.notice.announced)
  {
  }

  /**
   A session ends in an event exactly if a stop is called, or if the application stops it: when it is told that the model is
   at rest, or that a turn is over. One that has ended stays so.
   */
  lemma EndsExactly(m: Machine, e: Event)
    requires Settled(m)
    ensures Step(m, e).closed <==>
              || m.closed || e.StopCalled?
              || (Calls(e) && e.env.stopsOnIdle && ComesToRest(m, e))
              || (Calls(e) && e.env.stopsOnComplete && Step(m, e).notice.announced > m.notice.announced)
  {
    if m.closed {
      EndedStays(m, e);
    } else {
      match e
      case FrameArrives(f, env) => FrameEnds(m, f, env);
      case CloseTimerFires(_) => TimerEnds(m, e);
      case IdleTimerFires(_) => TimerEnds(m, e);
      case _ =>
    }
  }

  lemma ActivityStaysEnded(m: Machine, f: Frame, env: Env)
    requires m.closed
    ensures NoteActivity(m, f, env).closed
  {
    assert Heard(m, f, env).closed;
  }

  lemma EndedStays(m: Machine, e: Event)
    requires m.closed
    ensures Step(m, e).closed
  {
    match e
    case FrameArrives(f, env) =>
      ActivityStaysEnded(m, f, env);
      var a := NoteActivity(m, f, env);
      assert (if f.interrupted then Interrupt(a, env) else a).closed;
    case _ =>
  }

  /** The application is told of a turn's end exactly when one closes, and the session is not paused. */
  lemma ToldUnlessPaused(m: Machine, e: Event)
    requires Settled(m)
    ensures var n := Step(m, e);
            && n.notice.announced - m.notice.announced == (if m.muted then 0 else n.notice.closes - m.notice.closes)
            && n.notice.cancelled - m.notice.cancelled == (if m.muted then n.notice.closes - m.notice.closes else 0)
  {
    match e
    case FrameArrives(f, env) => FrameCloses(m, f, env);
    case CloseTimerFires(env) => TimersClose(m, env);
    case IdleTimerFires(env) => TimersClose(m, env);
    case MuteSet(_) =>
    case StopCalled =>
  }

  /** A session is paused exactly as the last word on it says. */
  lemma {:induction false} PausedAsTold(m: Machine, es: seq<Event>)
    ensures Run(m, es).muted == LastMuted(m.muted, es)
    decreases |es|
  {
    if es != [] {
      StepKeepsMuted(m, es[0]);
      PausedAsTold(Step(m, es[0]), es[1..]);
    }
  }

  function LastMuted(first: bool, es: seq<Event>): bool
    decreases |es|
  {
    if es == [] then first else LastMuted(if es[0].MuteSet? then es[0].muted else first, es[1..])
  }

  lemma StepKeepsMuted(m: Machine, e: Event)
    ensures Step(m, e).muted == if e.MuteSet? then e.muted else m.muted
  {
    match e
    case FrameArrives(f, env) => FrameMuted(m, f, env);
    case _ =>
  }

  lemma FrameMuted(m: Machine, f: Frame, env: Env)
    ensures OnFrame(m, f, env).muted == m.muted
  {
    assert Heard(m, f, env).muted == m.muted;
    assert NoteActivity(m, f, env).muted == m.muted;
  }

  /** A turn that closes has its usage banked, once, before that of the frame is recorded. */
  lemma CloseBanks(m: Machine, f: Frame, env: Env)
    requires !m.closed && !m.notice.owed && !OnFrame(m, f, env).closed
    ensures var before := if Completes(m.turn, f) then Bank(m.meter) else m.meter;
            OnFrame(m, f, env).meter == if f.usage.Some? then RecordUsage(before, f.usage.value) else before
  {
    NoteOwes(m, f, env);
    ActivityBanks(m, f, env);
  }

  lemma ActivityBanks(m: Machine, f: Frame, env: Env)
    requires !m.closed && !m.notice.owed
    ensures var a := NoteActivity(m, f, env); !a.closed ==> a.meter == if Completes(m.turn, f) then Bank(m.meter) else m.meter
  {
    HeardStays(m, f, env);
    var h := Heard(m, f, env);
    assert Closable(h.turn) && f.turnComplete <==> Completes(m.turn, f);
  }

  /** A timer that has fired is no longer armed. */
  lemma FiredIsDisarmed(m: Machine, env: Env)
    ensures !Step(m, IdleTimerFires(env)).turn.idleArmed
    ensures !Step(m, CloseTimerFires(env)).turn.closeArmed
  {
    var n := m.(turn := m.turn.(closeArmed := false));
    assert !CloseTurn(n, env).turn.closeArmed;
  }
}
