/**
 When a pending handover starts, in the data and in milliseconds: what decides it, since when somebody speaks, and
 which notice the deadline is of.
 */
module HandoverMoments {
  import opened Handover
  import opened HandoverStalls
  import opened LiveTypes
  import opened Numbers
  import opened Options

  // ---------- The decision, in the data ----------

  /** The deadline is known, and no more than `ms` away. */
  predicate Within(s: State, ms: int) {
    s.conn.deadline.Some? && s.conn.deadline.value - s.now <= ms
  }

  /** The deadline is known, and more than thirteen and a half seconds away. */
  predicate TimeInHand(s: State) {
    s.conn.deadline.Some? && s.conn.deadline.value - s.now > 13500
  }

  /** Nobody speaks, and the words of the interviewee's have been unanswered for five seconds, or one if the notice landed on them. */
  predicate Unanswered(s: State) {
    && s.conn.awaiting && s.conn.userTurnAt.Some? && !s.conn.mic.inUtterance
    && var u := s.conn.userTurnAt.value;
       s.now - u >= 5000 || (s.during == Some(u) && s.now - u >= 1000)
  }

  /** Somebody was heard less than `ms` ago. */
  predicate HeardWithin(s: State, ms: int) {
    s.conn.mic.lastLoud.Some? && s.now - s.conn.mic.lastLoud.value < ms
  }

  /**
   The interviewee is at rest: has said nothing since the model's turn closed; or is not speaking, and has not for four
   seconds and not since the question, if there is time, and for a second and a half if there is not.
   */
  predicate AtEase(s: State) {
    var mic := s.conn.mic;
    || mic.spoke == Some(false)
    || (!mic.inUtterance && if TimeInHand(s) then mic.spoke != Some(true) && !HeardWithin(s, 4000) else !HeardWithin(s, 1500))
  }

  /** A handover that is due: the deadline is a second and a half away, or the turn is unanswered, or both sides are at rest. */
  predicate Due(s: State) {
    Within(s, 1500) || Unanswered(s) || (!Busy(s.turnState) && AtEase(s))
  }

  /** Whether the next connection is told that the interviewee was cut off: it is, if speaking or heard two and a half seconds before. */
  predicate CutsOff(s: State) {
    !Unanswered(s) && s.conn.mic.spoke != Some(false) && (s.conn.mic.inUtterance || HeardWithin(s, 2500))
  }

  /**
   A pending handover starts exactly when it is due, with a record of what it started on; until then nothing changes,
   but that a poll is armed if none was.
   */
  lemma DecisionExactly(s: State)
    requires s.pending && Running(s)
    ensures MaybeRenew(s) ==
            if Due(s)
            then s.(poll := None, pending := false, conn := s.conn.(open := false),
                    log := s.log + [Started(s.now, s.resumedAt, s.turnState, s.conn, Unanswered(s), CutsOff(s))])
            else s.(poll := Some(if s.poll.Some? then s.poll.value else s.now + 300))
  {
    assert ReplyStalled(s) <==> Unanswered(s);
    assert NoteOf(s).cutOff <==> CutsOff(s);
    assert Deferred(s) <==> !Due(s);
  }

  // ---------- Since when somebody speaks ----------

  /** The `i`-th event is a frame of the microphone's, and is heard. */
  predicate Hears(s: State, es: seq<Timed>, i: int, loud: bool) {
    0 <= i < |es| && es[i].event == MicFrame(loud) && StateAt(s, es, i).conn.open && !StateAt(s, es, i).muted
  }

  ghost predicate LastLoud(s: State, es: seq<Timed>, i: int) {
    Hears(s, es, i, true) && forall k | i < k < |es| :: !Hears(s, es, k, true)
  }

  /** Somebody was heard, and of the frames since, all quiet, none came more than 1.2 seconds later. */
  ghost predicate SpeaksOn(s: State, es: seq<Timed>, i: int) {
    && LastLoud(s, es, i)
    && forall k | i < k < |es| && Hears(s, es, k, false) :: StateAt(s, es, k).now - StateAt(s, es, i).now <= 1200
  }

  lemma PrefixHearsAlike(s: State, init: seq<Timed>, e: Timed)
    ensures forall i, loud | 0 <= i < |init| :: Hears(s, init + [e], i, loud) <==> Hears(s, init, i, loud)
    ensures forall i | 0 <= i < |init| :: StateAt(s, init + [e], i) == StateAt(s, init, i)
  {
    forall i | 0 <= i < |init|
      ensures StateAt(s, init + [e], i) == StateAt(s, init, i)
    {
      assert (init + [e])[..i] == init[..i] && (init + [e])[i] == init[i];
    }
    assert forall i | 0 <= i < |init| :: (init + [e])[i] == init[i];
  }

  lemma EventHears(s: State, e: Event)
    requires !e.Opened?
    ensures var mic, hears := s.conn.mic, e.MicFrame? && s.conn.open && !s.muted;
            var after := Apply(s, e).conn.mic;
            && after.lastLoud == (if hears && e.loud then Some(s.now) else mic.lastLoud)
            && (after.inUtterance <==> if hears && e.loud then true
                                       else mic.inUtterance && !(hears && mic.lastLoud.Some? && s.now - mic.lastLoud.value > 1200))
  {
  }

  /** Which loud frame was the last, and whether somebody still speaks, by those of the run without its last event. */
  lemma SpeaksSoFar(s: State, init: seq<Timed>, e: Timed, i: int)
    requires 0 <= i <= |init|
    ensures var es, n := init + [e], |init|;
            && (LastLoud(s, es, i) <==> if i < n then LastLoud(s, init, i) && !Hears(s, es, n, true) else Hears(s, es, n, true))
            && (SpeaksOn(s, es, i) <==>
                  if i < n
                  then SpeaksOn(s, init, i) && !Hears(s, es, n, true)
                       && (Hears(s, es, n, false) ==> StateAt(s, es, n).now - StateAt(s, init, i).now <= 1200)
                  else Hears(s, es, n, true))
  {
    PrefixHearsAlike(s, init, e);
  }

  /**
   Speech, exactly. In every run on one connection that begins in silence somebody is taken to speak exactly if a loud
   frame has come and since then no quiet one more than 1.2 seconds after it; and the last time anybody was heard is
   that of the last loud frame.
   */
  lemma {:induction false} SpeechExactly(s: State, es: seq<Timed>)
    requires !s.conn.mic.inUtterance && forall i | 0 <= i < |es| :: !es[i].event.Opened?
    ensures Run(s, es).conn.mic.inUtterance <==> exists i :: SpeaksOn(s, es, i)
    ensures forall i | LastLoud(s, es, i) :: Run(s, es).conn.mic.lastLoud == Some(StateAt(s, es, i).now)
    ensures (forall i :: !LastLoud(s, es, i)) ==> Run(s, es).conn.mic.lastLoud == s.conn.mic.lastLoud
  {
    if es != [] {
      var init, e := es[..|es| - 1], es[|es| - 1];
      assert es == init + [e];
      SpeechExactly(s, init);
      LastLoudGrows(s, init, e);
      SpeechGrows(s, init, e);
    }
  }

  /** What an event does to the microphone: whether a frame was heard, and when. */
  ghost predicate HearsOne(mic: Mic, after: Mic, loud: bool, quiet: bool, now: int) {
    && after.lastLoud == (if loud then Some(now) else mic.lastLoud)
    && after.inUtterance == (loud || (mic.inUtterance && !(quiet && mic.lastLoud.Some? && now - mic.lastLoud.value > 1200)))
  }

  lemma StepHearsOne(s: State, e: Timed)
    requires !e.event.Opened?
    ensures var at := AdvanceTo(s, s.now + e.after);
            var hears := at.conn.open && !at.muted;
            HearsOne(s.conn.mic, Step(s, e).conn.mic, hears && e.event == MicFrame(true), hears && e.event == MicFrame(false), at.now)
  {
    AdvanceKeepsMic(s, s.now + e.after);
    EventHears(AdvanceTo(s, s.now + e.after), e.event);
  }

  lemma LastEventHears(s: State, init: seq<Timed>, e: Timed)
    requires !e.event.Opened?
    ensures var es, n := init + [e], |init|;
            HearsOne(Run(s, init).conn.mic, Run(s, es).conn.mic, Hears(s, es, n, true), Hears(s, es, n, false), StateAt(s, es, n).now)
  {
    var es := init + [e];
    assert es[..|init|] == init && es[|init|] == e;
    RunSnoc(s, init, e);
    StepHearsOne(Run(s, init), e);
  }

  lemma LastLoudGrows(s: State, init: seq<Timed>, e: Timed)
    requires !e.event.Opened?
    requires forall i | LastLoud(s, init, i) :: Run(s, init).conn.mic.lastLoud == Some(StateAt(s, init, i).now)
    requires (forall i :: !LastLoud(s, init, i)) ==> Run(s, init).conn.mic.lastLoud == s.conn.mic.lastLoud
    ensures var es := init + [e];
            && (forall i | LastLoud(s, es, i) :: Run(s, es).conn.mic.lastLoud == Some(StateAt(s, es, i).now))
            && ((forall i :: !LastLoud(s, es, i)) ==> Run(s, es).conn.mic.lastLoud == s.conn.mic.lastLoud)
  {
    var es := init + [e];
    LastEventHears(s, init, e);
    SpeaksSoFar(s, init, e, |init|);
    forall i | LastLoud(s, es, i) ensures Run(s, es).conn.mic.lastLoud == Some(StateAt(s, es, i).now) {
      SpeaksSoFar(s, init, e, i);
      PrefixHearsAlike(s, init, e);
    }
    if i :| LastLoud(s, init, i) { SpeaksSoFar(s, init, e, i); }
  }

  lemma SpeechGrows(s: State, init: seq<Timed>, e: Timed)
    requires !e.event.Opened?
    requires Run(s, init).conn.mic.inUtterance <==> exists i :: SpeaksOn(s, init, i)
    requires forall i | LastLoud(s, init, i) :: Run(s, init).conn.mic.lastLoud == Some(StateAt(s, init, i).now)
    ensures Run(s, init + [e]).conn.mic.inUtterance <==> exists i :: SpeaksOn(s, init + [e], i)
  {
    LastEventHears(s, init, e);
    SpeaksSoFar(s, init, e, |init|);
    if i :| SpeaksOn(s, init, i) {
      SpeaksSoFar(s, init, e, i);
      assert LastLoud(s, init, i);
      if Run(s, init + [e]).conn.mic.inUtterance && !Hears(s, init + [e], |init|, true) {
        assert SpeaksOn(s, init + [e], i);
      }
    }
    if i :| SpeaksOn(s, init + [e], i) {
      SpeaksSoFar(s, init, e, i);
      if i < |init| { assert LastLoud(s, init, i); }
    }
  }

  // ---------- Which notice the deadline is of ----------

  /** The `i`-th event is a notice, on a live connection. */
  predicate Notice(s: State, es: seq<Timed>, i: int) {
    0 <= i < |es| && es[i].event.GoAway? && StateAt(s, es, i).conn.open
  }

  ghost predicate LastNotice(s: State, es: seq<Timed>, i: int) {
    Notice(s, es, i) && forall k | i < k < |es| :: !Notice(s, es, k)
  }

  /** A notice that gives no time, or none at all, sets no deadline. */
  predicate DeadlineOf(timeLeft: Option<nat>, now: int, deadline: Option<int>) {
    if timeLeft.Some? && timeLeft.value != 0 then deadline == Some(now + timeLeft.value) else deadline.None?
  }

  lemma {:induction false} AdvanceKeepsDeadline(s: State, t: int)
    ensures var n := AdvanceTo(s, t); n.conn.deadline == s.conn.deadline && n.conn.knownAt == s.conn.knownAt && n.now == t
    decreases if s.poll.Some? && s.poll.value <= t then t - s.poll.value + 1 else 0
  {
    if s.poll.Some? && s.poll.value <= t { AdvanceKeepsDeadline(Fire(s), t); }
  }

  lemma EventAnnounces(s: State, e: Event)
    requires !e.Opened?
    ensures var n := Apply(s, e).conn;
            if e.GoAway? && s.conn.open then DeadlineOf(e.timeLeft, s.now, n.deadline) && n.knownAt == s.now
            else n.deadline == s.conn.deadline && n.knownAt == s.conn.knownAt
  {
  }

  lemma PrefixNoticesAlike(s: State, init: seq<Timed>, e: Timed)
    ensures StateAt(s, init + [e], |init|) == AdvanceTo(Run(s, init), Run(s, init).now + e.after)
    ensures forall k | 0 <= k < |init| :: Notice(s, init + [e], k) <==> Notice(s, init, k)
    ensures forall k | 0 <= k < |init| :: Resumes(s, init + [e], k) <==> Resumes(s, init, k)
    ensures forall k | 0 <= k < |init| :: StateAt(s, init + [e], k) == StateAt(s, init, k)
  {
    var es := init + [e];
    assert es[..|init|] == init && es[|init|] == e;
    PrefixHearsAlike(s, init, e);
    assert forall k | 0 <= k < |init| :: es[k] == init[k];
  }

  lemma NoticesSoFar(s: State, init: seq<Timed>, e: Timed, i: int)
    requires 0 <= i <= |init|
    ensures var es, n := init + [e], |init|;
            LastNotice(s, es, i) <==> if i < n then LastNotice(s, init, i) && !Notice(s, es, n) else Notice(s, es, n)
  {
    PrefixNoticesAlike(s, init, e);
  }

  /** What is known of the deadline is what the notice at `i` said, and since then. */
  ghost predicate KnownFrom(s: State, es: seq<Timed>, i: int, c: Conn)
    requires Notice(s, es, i)
  {
    DeadlineOf(es[i].event.timeLeft, StateAt(s, es, i).now, c.deadline) && c.knownAt == StateAt(s, es, i).now
  }

  /** The deadline, exactly: in every run on one connection it is that of the last notice, if that gave any. */
  lemma {:induction false} DeadlineExactly(s: State, es: seq<Timed>)
    requires forall i | 0 <= i < |es| :: !es[i].event.Opened?
    ensures forall i | LastNotice(s, es, i) :: KnownFrom(s, es, i, Run(s, es).conn)
    ensures (forall i :: !LastNotice(s, es, i)) ==> Run(s, es).conn.deadline == s.conn.deadline && Run(s, es).conn.knownAt == s.conn.knownAt
  {
    if es != [] {
      var init, e := es[..|es| - 1], es[|es| - 1];
      assert es == init + [e];
      DeadlineExactly(s, init);
      LastEventAnnounces(s, init, e);
      NoticesSoFar(s, init, e, |init|);
      forall i | LastNotice(s, es, i) ensures KnownFrom(s, es, i, Run(s, es).conn) {
        NoticesSoFar(s, init, e, i);
        PrefixNoticesAlike(s, init, e);
      }
      if i :| LastNotice(s, init, i) { NoticesSoFar(s, init, e, i); }
    }
  }

  /** What the last event does to the deadline, in terms of the run. */
  lemma LastEventAnnounces(s: State, init: seq<Timed>, e: Timed)
    requires !e.event.Opened?
    ensures var es, before, after := init + [e], Run(s, init).conn, Run(s, init + [e]).conn;
            if Notice(s, es, |init|) then KnownFrom(s, es, |init|, after)
            else after.deadline == before.deadline && after.knownAt == before.knownAt
  {
    PrefixNoticesAlike(s, init, e);
    RunSnoc(s, init, e);
    AdvanceKeepsDeadline(Run(s, init), Run(s, init).now + e.after);
    EventAnnounces(StateAt(s, init + [e], |init|), e.event);
  }

  // ---------- Whether there is anything to hand over ----------

  function LastTurnState(first: TurnState, es: seq<Timed>): TurnState {
    if es == [] then first
    else if es[|es| - 1].event.TurnStateIs? then es[|es| - 1].event.turnState
    else LastTurnState(first, es[..|es| - 1])
  }

  function LastMuted(first: bool, es: seq<Timed>): bool {
    if es == [] then first
    else if es[|es| - 1].event.SetMuted? then es[|es| - 1].event.muted
    else LastMuted(first, es[..|es| - 1])
  }

  lemma {:induction false} AdvanceKeepsStatus(s: State, t: int)
    ensures var n := AdvanceTo(s, t);
            && n.turnState == s.turnState && n.muted == s.muted && n.stopped == s.stopped
            && (n.conn.open <==> s.conn.open && n.log == s.log)
            && s.log <= n.log
    decreases if s.poll.Some? && s.poll.value <= t then t - s.poll.value + 1 else 0
  {
    if s.poll.Some? && s.poll.value <= t { AdvanceKeepsStatus(Fire(s), t); }
  }

  predicate Ends(e: Event) {
    e.SocketDies? || e.StopCalled?
  }

  lemma EventStatus(s: State, e: Event)
    ensures var n := Apply(s, e);
            && n.turnState == (if e.TurnStateIs? then e.turnState else s.turnState)
            && n.muted == (if e.SetMuted? then e.muted else s.muted)
            && (n.stopped <==> s.stopped || e.StopCalled?)
            && (n.conn.open <==> e.Opened? || (s.conn.open && !Ends(e) && n.log == s.log))
            && s.log <= n.log
  {
  }

  /**
   What a decision is taken on, exactly: the turn's state and the pause are the last ones heard of, and the interview is
   over once a stop was called.
   */
  lemma {:induction false} StatusFollows(s: State, es: seq<Timed>)
    ensures var r := Run(s, es);
            && r.turnState == LastTurnState(s.turnState, es) && r.muted == LastMuted(s.muted, es)
            && (r.stopped <==> s.stopped || exists i :: 0 <= i < |es| && es[i].event.StopCalled?)
            && s.log <= r.log
  {
    if es != [] {
      var init, e := es[..|es| - 1], es[|es| - 1];
      assert es == init + [e];
      StatusFollows(s, init);
      RunSnoc(s, init, e);
      var before := Run(s, init);
      AdvanceKeepsStatus(before, before.now + e.after);
      EventStatus(AdvanceTo(before, before.now + e.after), e.event);
      assert forall i | 0 <= i < |init| :: init[i] == es[i];
    }
  }

  /** A connection is live from its opening until its socket dies, a stop is called, or a handover starts on it. */
  lemma {:induction false} LiveUntilItEnds(s: State, es: seq<Timed>)
    requires forall i | 0 <= i < |es| :: !es[i].event.Opened?
    ensures var r := Run(s, es);
            r.conn.open <==> s.conn.open && r.log == s.log && forall i | 0 <= i < |es| :: !Ends(es[i].event)
  {
    if es != [] {
      var init, e := es[..|es| - 1], es[|es| - 1];
      assert es == init + [e];
      LiveUntilItEnds(s, init);
      StatusFollows(s, init);
      RunSnoc(s, init, e);
      var before := Run(s, init);
      AdvanceKeepsStatus(before, before.now + e.after);
      EventStatus(AdvanceTo(before, before.now + e.after), e.event);
      assert forall i | 0 <= i < |init| :: init[i] == es[i];
    }
  }

  /** A new connection is live, and nothing of the last one's notice, speech or wait is carried over. */
  lemma OpeningIsLive(s: State)
    ensures var n := Apply(s, Opened);
            && n.conn.open && n.conn.deadline.None? && !n.conn.awaiting && n.conn.mic.lastLoud.None? && !n.conn.mic.inUtterance
            && !n.pending && n.poll.None? && n.during.None? && n.log == s.log
  {
  }

  /** Where there is nothing to hand over nothing is handed over: on a dead connection until the next, after a stop for good. */
  lemma {:induction false} NothingStartsOnTheDead(s: State, es: seq<Timed>)
    requires s.stopped || (!s.conn.open && forall i | 0 <= i < |es| :: !es[i].event.Opened?)
    ensures Run(s, es).log == s.log
    decreases |es|
  {
    if es != [] {
      AdvanceOnTheDead(s, s.now + es[0].after);
      var at := AdvanceTo(s, s.now + es[0].after);
      EventStatus(at, es[0].event);
      assert Apply(at, es[0].event).log == s.log;
      NothingStartsOnTheDead(Step(s, es[0]), es[1..]);
    }
  }

  lemma {:induction false} AdvanceOnTheDead(s: State, t: int)
    requires s.stopped || !s.conn.open
    ensures var n := AdvanceTo(s, t); n.log == s.log && n.stopped == s.stopped && n.conn.open == s.conn.open
    decreases if s.poll.Some? && s.poll.value <= t then t - s.poll.value + 1 else 0
  {
    if s.poll.Some? && s.poll.value <= t { AdvanceOnTheDead(Fire(s), t); }
  }

  /** Once a stop is called, or the socket has died, no handover starts: for good, or until the next connection. */
  lemma EndsAreFinal(s: State, es: seq<Timed>)
    ensures Run(Apply(s, StopCalled), es).log == s.log
    ensures (forall i | 0 <= i < |es| :: !es[i].event.Opened?) ==> Run(Apply(s, SocketDies), es).log == s.log
  {
    NothingStartsOnTheDead(Apply(s, StopCalled), es);
    if forall i | 0 <= i < |es| :: !es[i].event.Opened? { NothingStartsOnTheDead(Apply(s, SocketDies), es); }
  }

  // ---------- Which events decide ----------

  /** What is known when the event is decided on: the notice, or that the model is idle. */
  function Noted(s: State, e: Event): State {
    match e
    case GoAway(_) => if s.conn.open then Announced(s, e.timeLeft) else s
    case ExpiryNears => s.(pending := true)
    case TurnStateIs(t) => s.(turnState := t)
    case _ => s
  }

  /** A notice, of either kind, and the model's falling idle are decided on at once; no other event starts a handover. */
  lemma TheseEventsDecide(s: State, e: Event)
    ensures var n := Noted(s, e);
            |Apply(s, e).log| == |s.log| + 1 <==>
              (e.GoAway? || e.ExpiryNears? || e == TurnStateIs(Idle)) && n.pending && Running(n) && Due(n)
    ensures |Apply(s, e).log| == |s.log| + 1 || Apply(s, e).log == s.log
  {
    if Noted(s, e).pending && Running(Noted(s, e)) { DecisionExactly(Noted(s, e)); }
  }

  /** A notice is pending from then on, and is held against the words that are unanswered when it comes. */
  lemma NoticeLands(s: State, timeLeft: Option<nat>)
    requires s.conn.open
    ensures var n := Noted(s, GoAway(timeLeft));
            && n.pending && n.conn.open && n.log == s.log && n.conn.knownAt == s.now
            && DeadlineOf(timeLeft, s.now, n.conn.deadline)
            && (s.conn.awaiting && s.conn.userTurnAt.Some? ==> n.during == s.conn.userTurnAt)
            && (!s.conn.awaiting ==> n.during == s.during)
  {
  }

  // ---------- Since when it goes on ----------

  /** The `i`-th event ends a pause. */
  predicate Resumes(s: State, es: seq<Timed>, i: int) {
    0 <= i < |es| && es[i].event == SetMuted(false) && StateAt(s, es, i).muted
  }

  ghost predicate LastResume(s: State, es: seq<Timed>, i: int) {
    Resumes(s, es, i) && forall k | i < k < |es| :: !Resumes(s, es, k)
  }

  lemma {:induction false} AdvanceKeepsResume(s: State, t: int)
    ensures AdvanceTo(s, t).resumedAt == s.resumedAt && AdvanceTo(s, t).now == t
    decreases if s.poll.Some? && s.poll.value <= t then t - s.poll.value + 1 else 0
  {
    if s.poll.Some? && s.poll.value <= t { AdvanceKeepsResume(Fire(s), t); }
  }

  lemma EventResumes(s: State, e: Event)
    ensures Apply(s, e).resumedAt == if e == SetMuted(false) && s.muted then s.now else s.resumedAt
  {
  }

  lemma ResumesSoFar(s: State, init: seq<Timed>, e: Timed, i: int)
    requires 0 <= i <= |init|
    ensures var es, n := init + [e], |init|;
            LastResume(s, es, i) <==> if i < n then LastResume(s, init, i) && !Resumes(s, es, n) else Resumes(s, es, n)
  {
    PrefixNoticesAlike(s, init, e);
  }

  /** The resume that a late handover may be counted from, exactly: the end of the last pause. */
  lemma {:induction false} ResumedExactly(s: State, es: seq<Timed>)
    ensures forall i | LastResume(s, es, i) :: Run(s, es).resumedAt == StateAt(s, es, i).now
    ensures (forall i :: !LastResume(s, es, i)) ==> Run(s, es).resumedAt == s.resumedAt
  {
    if es != [] {
      var init, e := es[..|es| - 1], es[|es| - 1];
      assert es == init + [e];
      ResumedExactly(s, init);
      RunSnoc(s, init, e);
      PrefixNoticesAlike(s, init, e);
      ResumesSoFar(s, init, e, |init|);
      AdvanceKeepsResume(Run(s, init), Run(s, init).now + e.after);
      EventResumes(StateAt(s, es, |init|), e.event);
      forall i | LastResume(s, es, i) ensures Run(s, es).resumedAt == StateAt(s, es, i).now {
        ResumesSoFar(s, init, e, i);
      }
      if i :| LastResume(s, init, i) { ResumesSoFar(s, init, e, i); }
    }
  }
}
