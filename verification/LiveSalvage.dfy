/**
 The salvage of a turn whose completion never comes. When its timer is armed, exactly, over every run; and what
 its firing does.
 */
module LiveSalvage {
  import opened LiveTurn
  import opened LiveTypes
  import opened Options

  // ---------- When the timer is armed ----------

  /** Everything has been generated, and the completion is still to come. */
  predicate Arms(e: Event) {
    e.FrameArrives? && e.frame.generationComplete && !e.frame.turnComplete
  }

  /** What calls an armed timer off: more audio, the completion, or its own firing. */
  predicate CallsOff(e: Event) {
    (e.FrameArrives? && (e.frame.audio || e.frame.turnComplete)) || e.CloseTimerFires?
  }

  lemma HeardArms(m: Machine, f: Frame, env: Env)
    requires !m.closed
    ensures !Heard(m, f, env).closed && (Heard(m, f, env).turn.closeArmed <==> m.turn.closeArmed && !f.audio)
  {
  }

  lemma NoteArms(m: Machine, f: Frame, env: Env)
    requires !m.closed
    ensures var n := NoteActivity(m, f, env);
            !n.closed ==> (n.turn.closeArmed <==> !f.turnComplete && (f.generationComplete || (m.turn.closeArmed && !f.audio)))
  {
    HeardArms(m, f, env);
  }

  lemma HeardStaysStopped(m: Machine, f: Frame, env: Env)
    ensures m.closed ==> Heard(m, f, env).closed
  {
  }

  lemma FrameStaysStopped(m: Machine, f: Frame, env: Env)
    ensures m.closed ==> OnFrame(m, f, env).closed
  {
    HeardStaysStopped(m, f, env);
    var a := NoteActivity(m, f, env);
    var b := if f.interrupted then Interrupt(a, env) else a;
    assert m.closed ==> a.closed;
    NoteStaysStopped(m, f, env);
    DrainLeavesTurn(Metered(b, f), env);
  }

  lemma StaysStopped(m: Machine, e: Event)
    ensures m.closed ==> Step(m, e).closed
  {
    match e
    case FrameArrives(f, env) => FrameStaysStopped(m, f, env);
    case CloseTimerFires(_) =>
    case IdleTimerFires(_) =>
    case MuteSet(_) =>
    case StopCalled =>
  }

  lemma FrameArms(m: Machine, f: Frame, env: Env)
    requires !m.closed && !OnFrame(m, f, env).closed
    ensures OnFrame(m, f, env).turn.closeArmed <==> !f.turnComplete && (f.generationComplete || (m.turn.closeArmed && !f.audio))
  {
    NoteArms(m, f, env);
    var a := NoteActivity(m, f, env);
    var b := if f.interrupted then Interrupt(a, env) else a;
    DrainLeavesTurn(Metered(b, f), env);
    NoteStaysStopped(m, f, env);
  }

  lemma DrainLeavesTurn(m: Machine, env: Env)
    ensures m.closed ==> Drain(m, env).closed
    ensures !Drain(m, env).closed ==> Drain(m, env).turn == m.turn
  {
  }

  lemma NoteStaysStopped(m: Machine, f: Frame, env: Env)
    ensures NoteActivity(m, f, env).closed ==> Interrupt(NoteActivity(m, f, env), env).closed
    ensures !Interrupt(NoteActivity(m, f, env), env).closed ==>
              Interrupt(NoteActivity(m, f, env), env).turn.closeArmed == NoteActivity(m, f, env).turn.closeArmed
  {
  }

  lemma TimersDisarm(m: Machine, env: Env)
    requires !m.closed
    ensures !OnCloseTimer(m, env).turn.closeArmed
    ensures !OnIdleTimer(m, env).closed ==> OnIdleTimer(m, env).turn.closeArmed == m.turn.closeArmed
  {
  }

  /** One event on a session that goes on. */
  lemma StepArms(m: Machine, e: Event)
    requires !m.closed && !Step(m, e).closed
    ensures Step(m, e).turn.closeArmed <==> Arms(e) || (m.turn.closeArmed && !CallsOff(e))
  {
    match e
    case FrameArrives(f, env) => FrameArms(m, f, env);
    case CloseTimerFires(env) => TimersDisarm(m, env);
    case IdleTimerFires(env) => TimersDisarm(m, env);
    case MuteSet(_) =>
    case StopCalled =>
  }

  /** Some event arms the timer and nothing later calls it off. */
  ghost predicate ArmedIn(es: seq<Event>) {
    exists i :: 0 <= i < |es| && Arms(es[i]) && NeverCalledOff(es[i + 1..])
  }

  ghost predicate NeverCalledOff(es: seq<Event>) {
    forall e | e in es :: !CallsOff(e) || Arms(e)
  }

  lemma ArmedFirst(e: Event, es: seq<Event>)
    ensures ArmedIn([e] + es) <==> ArmedIn(es) || (Arms(e) && NeverCalledOff(es))
    ensures NeverCalledOff([e] + es) <==> (!CallsOff(e) || Arms(e)) && NeverCalledOff(es)
  {
    var all := [e] + es;
    assert all[1..] == es;
    forall i | 0 <= i < |es| ensures all[i + 1] == es[i] && all[i + 2..] == es[i + 1..] { }
    if ArmedIn(all) {
      var i :| 0 <= i < |all| && Arms(all[i]) && NeverCalledOff(all[i + 1..]);
      if i > 0 { assert Arms(es[i - 1]) && all[i + 1..] == es[i..]; }
    }
    if i :| 0 <= i < |es| && Arms(es[i]) && NeverCalledOff(es[i + 1..]) {
      assert Arms(all[i + 1]) && all[i + 2..] == es[i + 1..];
    }
    if Arms(e) && NeverCalledOff(es) { assert Arms(all[0]); }
    assert forall x :: x in all <==> x == e || x in es;
  }

  lemma {:induction false} RunStaysStopped(m: Machine, es: seq<Event>)
    requires m.closed
    ensures Run(m, es).closed
    decreases |es|
  {
    if es != [] {
      StaysStopped(m, es[0]);
      RunStaysStopped(Step(m, es[0]), es[1..]);
    }
  }

  /**
   The salvage timer, exactly. In every run of a session that has not been stopped it is armed if some frame said that
   generation was complete, and not the turn, and no audio, no completion and no firing of it has come since; or if it was
   armed at first and none of these has come at all.
   */
  lemma {:induction false} ArmedExactly(m: Machine, es: seq<Event>)
    requires !Run(m, es).closed
    ensures !m.closed
    ensures Run(m, es).turn.closeArmed <==> ArmedIn(es) || (m.turn.closeArmed && NeverCalledOff(es))
    decreases |es|
  {
    if m.closed { RunStaysStopped(m, es); }
    if es != [] {
      var n := Step(m, es[0]);
      if n.closed { RunStaysStopped(n, es[1..]); }
      StepArms(m, es[0]);
      ArmedExactly(n, es[1..]);
      ArmedFirst(es[0], es[1..]);
      assert es == [es[0]] + es[1..];
    }
  }

  // ---------- What it does ----------

  /** The agent is at rest, about to be, or the session is over. */
  predicate Released(m: Machine) {
    m.closed || m.turn.state == Idle || m.turn.idleArmed
  }

  lemma CloseReleases(m: Machine, env: Env)
    requires !m.closed && Closable(m.turn)
    ensures Released(CloseTurn(m, env)) && Released(Drain(CloseTurn(m, env), env))
  {
  }

  /** Its firing closes a turn exactly if it is armed, the agent busy and something there to close; then the notice is settled and the floor given back. */
  lemma FiringSalvages(m: Machine, env: Env)
    requires Settled(m) && !m.closed
    ensures var n, salvaged := Step(m, CloseTimerFires(env)), m.turn.closeArmed && Busy(m.turn.state) && Closable(m.turn);
            && Settled(n)
            && n.notice.closes == m.notice.closes + (if salvaged then 1 else 0)
            && (salvaged && !m.muted ==> n.notice.announced == m.notice.announced + 1)
            && (salvaged ==> Released(n) && Spent(n.turn))
  {
    TimersClose(m, env);
    StepSettles(m, CloseTimerFires(env));
    if m.turn.closeArmed && Busy(m.turn.state) && Closable(m.turn) {
      CloseReleases(m.(turn := m.turn.(closeArmed := false)), env);
    }
  }

  /**
   An uncompleted turn is salvaged. From a frame that says that generation is complete, through any run without audio or a
   completion, the timer is armed; and when it then fires on an agent that is busy with a turn that has something to
   close, exactly one turn is closed, its notice settled, and the agent left at rest, about to be, or stopped.
   */
  lemma UncompletedTurnIsSalvaged(m: Machine, e: Event, es: seq<Event>, env: Env)
    requires Settled(m) && Arms(e) && forall x | x in es :: !CallsOff(x) || Arms(x)
    requires !Run(m, [e] + es).closed
    ensures var r := Run(m, [e] + es);
            var n := Step(r, CloseTimerFires(env));
            && r.turn.closeArmed
            && (n.notice.closes == r.notice.closes + 1 <==> Busy(r.turn.state) && Closable(r.turn))
            && Settled(n) && (Busy(r.turn.state) && Closable(r.turn) ==> Released(n))
  {
    ArmedFirst(e, es);
    ArmedExactly(m, [e] + es);
    RunSettles(m, [e] + es);
    FiringSalvages(Run(m, [e] + es), env);
  }

  /** Speech, then the end of generation without the turn's: the timer closes the turn, and the agent is idle. */
  lemma SpokenTurnIsSalvaged(env: Env)
    requires env == Env(false, false, 0)
    ensures var audio := Frame(true, false, "", false, false, false, None);
            var generated := Frame(false, false, "", false, true, false, None);
            var n := OnCloseTimer(OnFrame(OnFrame(Initial(), audio, env), generated, env), env);
            n.notice == Notice(false, 1, 1, 0) && n.turn.state == Idle
  {
  }
}
