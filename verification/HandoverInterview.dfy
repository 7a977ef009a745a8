/**
 The interview object and its connection object. Each method takes the machine of `Handover` through
 its step; a new connection is a new object, so what was announced on the old one stays behind.
 */
module HandoverInterview {
  import opened Handover
  import opened LiveTypes
  import opened Options

  class Connection {
    var closed: bool
    var goAwayDeadlineAt: Option<int>
    var micLastLoudAt: Option<int>
    var micInUtterance: bool
    var spokeSinceTurnEnd: Option<bool>
    var awaitingReply: bool
    var userTurnStartedAt: Option<int>
    ghost var knownAt: int
    ghost var heard: bool
    ghost var straddles: bool

    ghost function View(): Conn
      reads this
    {
      Conn(!closed, goAwayDeadlineAt, knownAt, Mic(micLastLoudAt, micInUtterance, spokeSinceTurnEnd, heard, straddles),
           awaitingReply, userTurnStartedAt)
    }

    constructor ()
      ensures View() == NewConn()
    {
      closed, goAwayDeadlineAt, micLastLoudAt, micInUtterance, spokeSinceTurnEnd := false, None, None, false, None;
      awaitingReply, userTurnStartedAt := false, None;
      knownAt, heard, straddles := 0, false, false;
    }

    /** One microphone frame: an utterance begins on the first loud one and ends after a gap. */
    method ObserveMicLevel(loud: bool, now: int)
      modifies this
      ensures View() == old(View()).(mic := HearFrame(old(View()).mic, loud, now))
    {
      if loud {
        micLastLoudAt := Some(now);
        heard := heard || !micInUtterance || !straddles;
        straddles := micInUtterance && straddles;
        if !micInUtterance {
          micInUtterance := true;
          spokeSinceTurnEnd := Some(true);
        }
      } else if micInUtterance && micLastLoudAt.Some? && now - micLastLoudAt.value > UTTERANCE_GAP_MS {
        micInUtterance := false;
        straddles := false;
      }
    }

    method NoteUserTranscript(now: int)
      modifies this
      ensures View() == if old(View()).awaiting then old(View()) else old(View()).(awaiting := true, userTurnAt := Some(now))
    {
      if !awaitingReply {
        awaitingReply := true;
        userTurnStartedAt := Some(now);
      }
    }

    /** The deadline is an absolute time; an older server gives none. */
    method HearGoAway(timeLeft: Option<nat>, now: int)
      modifies this
      ensures View() == old(View()).(deadline := DeadlineAt(timeLeft, now), knownAt := now)
    {
      goAwayDeadlineAt := if timeLeft.Some? && timeLeft.value > 0 then Some(now + timeLeft.value) else None;
      knownAt := now;
    }

    method CloseTurn()
      modifies this
      ensures View() == old(View()).(mic := CloseOnMic(old(View()).mic))
    {
      spokeSinceTurnEnd := Some(false);
      heard, straddles := false, micInUtterance;
    }

    method Stop()
      modifies this
      ensures View() == old(View()).(open := false)
    {
      closed := true;
    }
  }

  class Interview {
    var now: int
    var stopped: bool
    var muted: bool
    var turnState: TurnState
    var goAwayPending: bool
    var goAwayPoll: Option<int>
    var goAwayDuringTurn: Option<int>
    var cutOffInterviewee: bool
    var replyStalled: bool
    var session: Connection
    ghost var resumedAt: int
    ghost var log: seq<Started>

    ghost function View(): State
      reads this, session
    {
      State(now, stopped, muted, resumedAt, turnState, goAwayPending, goAwayPoll, goAwayDuringTurn, session.View(), log)
    }

    constructor (at: int)
      ensures View() == Start(at) && fresh(session)
    {
      session := new Connection();
      now, stopped, muted, turnState, goAwayPending, goAwayPoll := at, false, false, Unset, false, None;
      goAwayDuringTurn, cutOffInterviewee, replyStalled := None, false, false;
      resumedAt, log := at, [];
    }

    method ArmGoAwayPoll()
      modifies this`goAwayPoll
      ensures View() == Arm(old(View()))
    {
      if goAwayPoll.Some? { return; }
      goAwayPoll := Some(now + POLL_MS);
    }

    /** Has the connection stopped answering? */
    method HasStalled() returns (stalled: bool)
      ensures stalled == ReplyStalled(View())
    {
      var s := session;
      var stalledMs := if s.awaitingReply && s.userTurnStartedAt.Some? then now - s.userTurnStartedAt.value else 0;
      var confirmed := stalledMs != 0 && goAwayDuringTurn == s.userTurnStartedAt;
      var wantStallMs := if confirmed then STALL_CONFIRMED_MS else STALL_MS;
      stalled := stalledMs >= wantStallMs && !s.micInUtterance;
    }

    method MustWait(stalled: bool) returns (wait: bool)
      requires stalled == ReplyStalled(View())
      ensures wait == Deferred(View())
    {
      var s := session;
      var headroomMs := if s.goAwayDeadlineAt.Some? then s.goAwayDeadlineAt.value - now - COST_MS else 0;
      var wantQuietMs := if headroomMs > RELAX_BELOW_MS then QUIET_IDEAL_MS else QUIET_MIN_MS;
      var quietEnough := s.micLastLoudAt.Some? ==> now - s.micLastLoudAt.value >= wantQuietMs;
      var mustGoNow := s.goAwayDeadlineAt.Some? && headroomMs <= 0;
      if !stalled && !mustGoNow && (turnState == Speaking || turnState == Thinking) { return true; }
      var atTurnBoundary := s.spokeSinceTurnEnd == Some(false);
      var waitForBoundary := s.spokeSinceTurnEnd == Some(true) && headroomMs > RELAX_BELOW_MS;
      wait := !mustGoNow && !stalled && !atTurnBoundary && (waitForBoundary || s.micInUtterance || !quietEnough);
    }

    /** Note what the next connection is to be told of this handover. */
    method NoteHandover(stalled: bool)
      requires stalled == ReplyStalled(View())
      modifies this`cutOffInterviewee, this`replyStalled, this`log
      ensures log == old(log) + [NoteOf(old(View()))]
      ensures cutOffInterviewee == NoteOf(old(View())).cutOff && replyStalled == NoteOf(old(View())).stalled
    {
      var s := session;
      cutOffInterviewee := s.spokeSinceTurnEnd != Some(false) &&
        (s.micInUtterance || (s.micLastLoudAt.Some? && now - s.micLastLoudAt.value < CUTOFF_WINDOW_MS));
      replyStalled := stalled;
      if stalled { cutOffInterviewee := false; }
      log := log + [Started(now, resumedAt, turnState, s.View(), stalled, cutOffInterviewee)];
    }

    /** Give the connection up. */
    method GiveUp(stalled: bool)
      requires stalled == ReplyStalled(View())
      modifies this, session
      ensures session == old(session) && View() == HandOver(old(View()))
    {
      NoteHandover(stalled);
      goAwayPoll := None;
      goAwayPending := false;
      session.Stop();
    }

    /** Hand over now, wait, or nothing to decide. */
    method MaybeRenewOnGoAway()
      modifies this, session
      ensures session == old(session) && View() == MaybeRenew(old(View()))
    {
      if !goAwayPending || stopped || muted || session.closed { return; }
      var stalled := HasStalled();
      var wait := MustWait(stalled);
      if wait { ArmGoAwayPoll(); } else { GiveUp(stalled); }
    }

    method OnGoAway(timeLeft: Option<nat>)
      modifies this, session
      ensures session == old(session) && View() == Apply(old(View()), GoAway(timeLeft))
    {
      if session.closed { return; }
      session.HearGoAway(timeLeft, now);
      if session.awaitingReply && session.userTurnStartedAt.Some? { goAwayDuringTurn := session.userTurnStartedAt; }
      goAwayPending := true;
      MaybeRenewOnGoAway();
    }

    method ExpiryTimerFires()
      modifies this, session
      ensures session == old(session) && View() == Apply(old(View()), ExpiryNears)
    {
      if stopped { return; }
      goAwayPending := true;
      MaybeRenewOnGoAway();
    }

    method OnTurnState(t: TurnState)
      modifies this, session
      ensures session == old(session) && View() == Apply(old(View()), TurnStateIs(t))
    {
      turnState := t;
      if t == Idle && goAwayPending { MaybeRenewOnGoAway(); }
    }

    method SetMute(m: bool)
      modifies this, session
      ensures session == old(session) && View() == Apply(old(View()), SetMuted(m))
    {
      if muted && !m { resumedAt := now; }
      muted := m;
      if !m { session.awaitingReply := false; }
    }

    /** The new connection is attached, and the previous one's goAway dies with it. */
    method OpenSession()
      modifies this
      ensures fresh(session) && View() == Apply(old(View()), Opened)
    {
      session := new Connection();
      goAwayPoll := None;
      goAwayPending := false;
      goAwayDuringTurn := None;
    }

    method StopInterview()
      modifies this, session
      ensures session == old(session) && View() == Apply(old(View()), StopCalled)
    {
      stopped := true;
      goAwayPoll := None;
      session.Stop();
    }

    method PollFires()
      requires goAwayPoll.Some?
      modifies this, session
      ensures session == old(session) && View() == Fire(old(View()))
    {
      now := goAwayPoll.value;
      if !goAwayPending || stopped {
        goAwayPoll := None;
        return;
      }
      goAwayPoll := Some(now + POLL_MS);
      MaybeRenewOnGoAway();
    }

    /** Let time pass: the poll fires whenever it is due. */
    method PassTime(t: int)
      modifies this, session
      ensures session == old(session) && View() == AdvanceTo(old(View()), t)
    {
      while goAwayPoll.Some? && goAwayPoll.value <= t
        invariant session == old(session) && AdvanceTo(View(), t) == AdvanceTo(old(View()), t)
        decreases if goAwayPoll.Some? && goAwayPoll.value <= t then t - goAwayPoll.value + 1 else 0
      {
        PollFires();
      }
      now := t;
    }

    method Deliver(e: Event)
      modifies this, session
      ensures (session == old(session) || fresh(session)) && View() == Apply(old(View()), e)
    {
      match e {
        case MicFrame(loud) => if !session.closed && !muted { session.ObserveMicLevel(loud, now); }
        case UserText => if !session.closed { session.NoteUserTranscript(now); }
        case ModelFrame => session.awaitingReply := false;
        case TurnCloses => session.CloseTurn();
        case TurnStateIs(t) => OnTurnState(t);
        case GoAway(timeLeft) => OnGoAway(timeLeft);
        case ExpiryNears => ExpiryTimerFires();
        case SetMuted(m) => SetMute(m);
        case SocketDies => session.Stop();
        case Opened => OpenSession();
        case StopCalled => StopInterview();
      }
    }

    method Handle(e: Timed)
      modifies this, session
      ensures (session == old(session) || fresh(session)) && View() == Step(old(View()), e)
    {
      PassTime(now + e.after);
      Deliver(e.event);
    }
  }

  /** A whole interview's events. Every handover it started is on time and decent. */
  method Conduct(at: int, es: seq<Timed>) returns (i: Interview)
    ensures fresh(i) && fresh(i.session) && i.View() == Run(Start(at), es)
    ensures Decent(i.View()) && (NoneMissed(Start(at), es) ==> Kept(i.View()))
  {
    i := new Interview(at);
    RunFromStart(at, es);
    for k := 0 to |es|
      invariant fresh(i) && fresh(i.session) && Run(i.View(), es[k..]) == Run(Start(at), es)
    {
      RunOne(i.View(), es, k);
      i.Handle(es[k]);
    }
    assert es[|es|..] == [];
  }

  lemma RunOne(s: State, es: seq<Timed>, k: nat)
    requires k < |es|
    ensures Run(s, es[k..]) == Run(Step(s, es[k]), es[k + 1..])
  {
    assert es[k..][0] == es[k] && es[k..][1..] == es[k + 1..];
  }

  lemma RunFromStart(at: int, es: seq<Timed>)
    ensures es[0..] == es
    ensures Decent(Run(Start(at), es)) && (NoneMissed(Start(at), es) ==> Kept(Run(Start(at), es)))
  {
    StartIsKept(at);
    HandoversAreDecent(Start(at), es);
    DeadlineIsKept(Start(at), es);
  }
}
