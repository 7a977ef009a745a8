/**
 The live session object. Its methods call each other, and the application, in the order the
 session does, and each is proved to take the machine of `LiveTurn` through the same step, also when
 the application stops the session from inside a callback.
 */
module LiveSession {
  import opened LiveTurn
  import opened LiveTypes
  import opened Options

  class Session {
    var closed: bool
    var muted: bool
    var turnState: TurnState
    var contentSinceClose: bool
    var turnNeedsNotify: bool
    var turnAudio: bool
    var turnText: string
    var turnCloseTimer: bool
    var idleDeferTimer: bool
    var turnUsage: Option<Usage>
    var usage: Usage
    ghost var notice: Notice
    ghost var segments: seq<seq<Usage>>
    ghost var open: seq<Usage>

    ghost function View(): Machine
      reads this
    {
      Machine(closed, muted,
              Turn(turnState, contentSinceClose, turnAudio, turnText, turnCloseTimer, idleDeferTimer),
              notice, Meter(turnUsage, usage, segments, open))
    }

    /** The flag the code keeps is the notice that is owed. */
    ghost predicate Valid()
      reads this
    {
      turnNeedsNotify == notice.owed
    }

    constructor ()
      ensures Valid() && View() == Initial()
    {
      closed, muted, turnState, contentSinceClose, turnNeedsNotify := false, false, Unset, false, false;
      turnAudio, turnText, turnCloseTimer, idleDeferTimer := false, "", false, false;
      turnUsage, usage := None, Usage(0, 0);
      notice, segments, open := Notice(false, 0, 0, 0), [], [];
    }

    method RecordTurnUsage(u: Usage)
      requires Valid()
      modifies this
      ensures Valid() && View() == old(View()).(meter := RecordUsage(old(View()).meter, u))
    {
      var t := if turnUsage.Some? then turnUsage.value else Usage(0, 0);
      turnUsage := Some(MaxUsage(t, u));
      open := open + [u];
    }

    method BankTurnUsage()
      requires Valid()
      modifies this
      ensures Valid() && View() == old(View()).(meter := Bank(old(View()).meter))
    {
      if turnUsage.None? { return; }
      var t := turnUsage.value;
      turnUsage := None;
      usage := AddUsage(usage, t);
      segments, open := segments + [open], [];
    }

    method CancelTurnCompleteNotice()
      requires Valid()
      modifies this
      ensures Valid() && !turnNeedsNotify
      ensures View() == old(View()).(notice := Settle(old(View()).notice, true))
    {
      if !turnNeedsNotify { return; }
      turnNeedsNotify := false;
      notice := Settle(notice, true);
    }

    /** Tell the application that a turn ended, once; when paused, forget it. */
    method DrainTurnCompleteNotice(env: Env)
      requires Valid()
      modifies this
      ensures Valid() && View() == Drain(old(View()), env)
      decreases if closed then 0 else 1, 1
    {
      if !turnNeedsNotify { return; }
      if muted { CancelTurnCompleteNotice(); return; }
      turnNeedsNotify := false;
      notice := Settle(notice, false);
      if env.stopsOnComplete { StopSession(env); }
    }

    /** The session is marked closed first, so a stop from inside the callbacks returns at once. */
    method StopSession(env: Env)
      requires Valid()
      modifies this
      ensures Valid() && View() == Stop(old(View()))
      decreases if closed then 0 else 1, 0
    {
      if closed { return; }
      closed := true;
      DrainTurnCompleteNotice(env);
      idleDeferTimer := false;
      BankTurnUsage();
      turnCloseTimer := false;
    }

    method SetTurnState(s: TurnState, env: Env)
      requires Valid()
      modifies this
      ensures Valid() && View() == SetState(old(View()), s, env)
    {
      if s != Idle { idleDeferTimer := false; }
      if turnState == s { return; }
      turnState := s;
      if s == Idle && env.stopsOnIdle { StopSession(env); }
    }

    /** The turn is over: the application is owed a notice, and what the turn used is banked. */
    method EndTurn()
      requires Valid()
      modifies this
      ensures Valid() && View() == Ended(old(View()))
    {
      contentSinceClose := false;
      turnNeedsNotify := true;
      notice := Owe(notice);
      BankTurnUsage();
      turnAudio := false;
      turnText := "";
      turnCloseTimer := false;
      idleDeferTimer := false;
    }

    method CloseModelTurn(env: Env)
      requires Valid()
      modifies this
      ensures Valid() && View() == CloseTurn(old(View()), env)
    {
      var muteTurn := !turnAudio && turnText != "";
      if !contentSinceClose && !muteTurn { return; }
      EndTurn();
      if env.waitMs < IDLE_DEFER_MIN_MS { SetTurnState(Idle, env); return; }
      idleDeferTimer := true;
    }

    method HearAudio(env: Env)
      requires Valid()
      modifies this
      ensures Valid() && View() == HeardAudio(old(View()), env)
    {
      if turnCloseTimer { turnCloseTimer := false; }
      if !turnAudio {
        turnAudio := true;
        SetTurnState(Speaking, env);
      }
    }

    /** The part of `_noteModelActivity` before the completion flags. */
    method HearModel(f: Frame, env: Env)
      requires Valid()
      modifies this
      ensures Valid() && View() == Heard(old(View()), f, env)
    {
      if f.audio || f.modelText { contentSinceClose := true; }
      turnText := turnText + f.agentText;
      assert View() == Spoken(old(View()), f);
      if f.modelText && !turnAudio && turnState != Thinking { SetTurnState(Thinking, env); }
      if f.audio { HearAudio(env); }
    }

    method NoteModelActivity(f: Frame, env: Env)
      requires Valid()
      modifies this
      ensures Valid() && View() == NoteActivity(old(View()), f, env)
    {
      HearModel(f, env);
      if f.generationComplete && !f.turnComplete && !turnCloseTimer { turnCloseTimer := true; }
      if f.turnComplete {
        turnCloseTimer := false;
        CloseModelTurn(env);
      }
    }

    /** A server frame. Usage counts also while paused; the turn itself is then dropped, with its notice. */
    method OnMessage(f: Frame, env: Env)
      requires Valid()
      modifies this
      ensures Valid() && View() == OnFrame(old(View()), f, env)
    {
      NoteModelActivity(f, env);
      if f.interrupted {
        turnAudio := false;
        SetTurnState(Idle, env);
      }
      if f.usage.Some? { RecordTurnUsage(f.usage.value); }
      if muted {
        CancelTurnCompleteNotice();
        return;
      }
      DrainTurnCompleteNotice(env);
    }

    method TurnCloseTimerFires(env: Env)
      requires Valid()
      modifies this
      ensures Valid() && View() == OnCloseTimer(old(View()), env)
    {
      if !turnCloseTimer { return; }
      turnCloseTimer := false;
      if turnState != Speaking && turnState != Thinking { return; }
      CloseModelTurn(env);
      DrainTurnCompleteNotice(env);
    }

    method IdleDeferTimerFires(env: Env)
      requires Valid()
      modifies this
      ensures Valid() && View() == OnIdleTimer(old(View()), env)
    {
      if !idleDeferTimer { return; }
      idleDeferTimer := false;
      if turnState == Speaking || turnState == Thinking { SetTurnState(Idle, env); }
      DrainTurnCompleteNotice(env);
    }

    method SetMuted(m: bool)
      requires Valid()
      modifies this
      ensures Valid() && View() == Step(old(View()), MuteSet(m))
    {
      muted := m;
    }
  }

  /** Any run of events on a session: every turn that closed was announced or dropped, and usage is the sum of the segments. */
  method Drive(es: seq<Event>) returns (s: Session)
    ensures fresh(s) && s.Valid() && s.View() == Run(Initial(), es)
    ensures !s.turnNeedsNotify && s.usage == SumOfMax(s.segments) && s.segments == Run(Initial(), es).meter.segments
  {
    s := new Session();
    RunFromStart(es);
    for i := 0 to |es|
      invariant fresh(s) && s.Valid() && Run(s.View(), es[i..]) == Run(Initial(), es)
    {
      var e := es[i];
      assert es[i..][0] == e && es[i..][1..] == es[i + 1..];
      match e {
        case FrameArrives(f, env) => s.OnMessage(f, env);
        case CloseTimerFires(env) => s.TurnCloseTimerFires(env);
        case IdleTimerFires(env) => s.IdleDeferTimerFires(env);
        case MuteSet(m) => s.SetMuted(m);
        case StopCalled => s.StopSession(Env(false, false, 0));
      }
    }
    assert es[|es|..] == [];
  }

  lemma RunFromStart(es: seq<Event>)
    ensures Settled(Run(Initial(), es)) && Exact(Run(Initial(), es).meter)
    ensures es[0..] == es
  {
    RunSettles(Initial(), es);
    RunIsExact(Initial(), es);
  }
}
