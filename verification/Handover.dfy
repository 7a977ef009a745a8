/**
 When an interview hands over to a new connection. The server announces that it will cut the socket
 (goAway); the interview then waits for a moment that costs the interviewee nothing, but not past
 the deadline. Time is explicit, in milliseconds, and the 300 ms poll fires on time.
 */
module Handover {
  import opened LiveTypes
  import opened Numbers
  import opened Options

  const COST_MS: int := 1500
  const QUIET_IDEAL_MS: int := 4000
  const QUIET_MIN_MS: int := 1500
  const RELAX_BELOW_MS: int := 12000
  const STALL_MS: int := 5000
  const STALL_CONFIRMED_MS: int := 1000
  const CUTOFF_WINDOW_MS: int := 2500
  const POLL_MS: int := 300
  const UTTERANCE_GAP_MS: int := 1200

  /**
   The microphone. `spoke`: has an utterance begun since the model's turn closed (unknown before the
   first close). History: `heard`, a loud frame of an utterance begun since then; `straddles`, the
   utterance under way was so at the close.
   */
  datatype Mic = Mic(lastLoud: Option<int>, inUtterance: bool, spoke: Option<bool>, heard: bool, straddles: bool)

  /** One connection. `knownAt` is when its deadline was announced. */
  datatype Conn = Conn(open: bool, deadline: Option<int>, knownAt: int, mic: Mic, awaiting: bool, userTurnAt: Option<int>)

  /** A handover that was started, and what it was started on. */
  datatype Started = Started(at: int, resumedAt: int, turnState: TurnState, conn: Conn, stalled: bool, cutOff: bool)

  datatype State = State(
    now: int, stopped: bool, muted: bool, resumedAt: int, turnState: TurnState,
    pending: bool, poll: Option<int>, during: Option<int>, conn: Conn, log: seq<Started>)

  function NewConn(): Conn {
    Conn(true, None, 0, Mic(None, false, None, false, false), false, None)
  }

  // ---------- The decision ----------

  function HeadroomAt(c: Conn, at: int): int {
    if c.deadline.Some? then c.deadline.value - at - COST_MS else 0
  }

  predicate MustGoAt(c: Conn, at: int) {
    c.deadline.Some? && HeadroomAt(c, at) <= 0
  }

  predicate QuietFor(m: Mic, at: int, ms: int) {
    m.lastLoud.Some? ==> at - m.lastLoud.value >= ms
  }

  function UnansweredMs(c: Conn, at: int): int {
    if c.awaiting && c.userTurnAt.Some? then at - c.userTurnAt.value else 0
  }

  /** Nothing since the turn was transcribed, for long enough; less is enough if the goAway landed on that turn. */
  predicate ReplyStalled(s: State) {
    var ms := UnansweredMs(s.conn, s.now);
    var confirmed := ms != 0 && s.during == s.conn.userTurnAt;
    ms >= (if confirmed then STALL_CONFIRMED_MS else STALL_MS) && !s.conn.mic.inUtterance
  }

  predicate Deferred(s: State) {
    var headroom := HeadroomAt(s.conn, s.now);
    var mic := s.conn.mic;
    var wantQuiet := if headroom > RELAX_BELOW_MS then QUIET_IDEAL_MS else QUIET_MIN_MS;
    var waitForBoundary := mic.spoke == Some(true) && headroom > RELAX_BELOW_MS;
    && !MustGoAt(s.conn, s.now) && !ReplyStalled(s)
    && (Busy(s.turnState) ||
        (mic.spoke != Some(false) && (waitForBoundary || mic.inUtterance || !QuietFor(mic, s.now, wantQuiet))))
  }

  predicate Running(s: State) {
    !s.stopped && !s.muted && s.conn.open
  }

  function Arm(s: State): State {
    if s.poll.Some? then s else s.(poll := Some(s.now + POLL_MS))
  }

  /** The handover as the next connection is told of it. */
  function NoteOf(s: State): Started {
    var mic := s.conn.mic;
    var stalled := ReplyStalled(s);
    var cutOff := !stalled && mic.spoke != Some(false) && (mic.inUtterance || !QuietFor(mic, s.now, CUTOFF_WINDOW_MS));
    Started(s.now, s.resumedAt, s.turnState, s.conn, stalled, cutOff)
  }

  function HandOver(s: State): State {
    s.(poll := None, pending := false, conn := s.conn.(open := false), log := s.log + [NoteOf(s)])
  }

  function MaybeRenew(s: State): State {
    if !s.pending || !Running(s) then s
    else if Deferred(s) then Arm(s)
    else HandOver(s)
  }

  // ---------- Events and time ----------

  datatype Event =
    | MicFrame(loud: bool)
    | UserText
    | ModelFrame
    | TurnCloses
    | TurnStateIs(turnState: TurnState)
    | GoAway(timeLeft: Option<nat>)
    | ExpiryNears
    | SetMuted(muted: bool)
    | SocketDies
    | Opened
    | StopCalled

  function HearFrame(m: Mic, loud: bool, now: int): Mic {
    if loud then
      Mic(Some(now), true, if m.inUtterance then m.spoke else Some(true), m.heard || !m.inUtterance || !m.straddles, m.inUtterance && m.straddles)
    else if m.inUtterance && m.lastLoud.Some? && now - m.lastLoud.value > UTTERANCE_GAP_MS then m.(inUtterance := false, straddles := false)
    else m
  }

  function CloseOnMic(m: Mic): Mic {
    Mic(m.lastLoud, m.inUtterance, Some(false), false, m.inUtterance)
  }

  function DeadlineAt(timeLeft: Option<nat>, now: int): Option<int> {
    if timeLeft.Some? && timeLeft.value > 0 then Some(now + timeLeft.value) else None
  }

  /** The notice is recorded, and against the turn it landed on if that turn is unanswered. */
  function Announced(s: State, timeLeft: Option<nat>): State {
    var during := if s.conn.awaiting && s.conn.userTurnAt.Some? then s.conn.userTurnAt else s.during;
    s.(pending := true, during := during, conn := s.conn.(deadline := DeadlineAt(timeLeft, s.now), knownAt := s.now))
  }

  function ReceiveGoAway(s: State, timeLeft: Option<nat>): State {
    MaybeRenew(Announced(s, timeLeft))
  }

  function Apply(s: State, e: Event): State {
    match e
    case MicFrame(loud) => if s.conn.open && !s.muted then s.(conn := s.conn.(mic := HearFrame(s.conn.mic, loud, s.now))) else s
    case UserText =>
      if s.conn.open && !s.conn.awaiting then s.(conn := s.conn.(awaiting := true, userTurnAt := Some(s.now))) else s
    case ModelFrame => s.(conn := s.conn.(awaiting := false))
    case TurnCloses => s.(conn := s.conn.(mic := CloseOnMic(s.conn.mic)))
    case TurnStateIs(t) =>
      var n := s.(turnState := t);
      if t == Idle then MaybeRenew(n) else n
    case GoAway(timeLeft) => if s.conn.open then ReceiveGoAway(s, timeLeft) else s
    case ExpiryNears => if s.stopped then s else MaybeRenew(s.(pending := true))
    case SetMuted(m) =>
      s.(muted := m, resumedAt := if s.muted && !m then s.now else s.resumedAt,
         conn := if m then s.conn else s.conn.(awaiting := false))
    case SocketDies => s.(conn := s.conn.(open := false))
    case Opened => s.(poll := None, pending := false, during := None, conn := NewConn())
    case StopCalled => s.(stopped := true, poll := None, conn := s.conn.(open := false))
  }

  /** The poll's tick: it clears itself once nothing is pending. */
  function Fire(s: State): (r: State)
    requires s.poll.Some?
    ensures r.poll.Some? ==> r.poll.value == s.poll.value + POLL_MS
  {
    var n := s.(now := s.poll.value);
    if !s.pending || s.stopped then n.(poll := None) else MaybeRenew(n.(poll := Some(s.poll.value + POLL_MS)))
  }

  function AdvanceTo(s: State, t: int): State
    decreases if s.poll.Some? && s.poll.value <= t then t - s.poll.value + 1 else 0
  {
    if s.poll.Some? && s.poll.value <= t then AdvanceTo(Fire(s), t) else s.(now := t)
  }

  /** An event, and how long after the one before it comes. */
  datatype Timed = Timed(after: nat, event: Event)

  function Step(s: State, e: Timed): State {
    Apply(AdvanceTo(s, s.now + e.after), e.event)
  }

  function Run(s: State, es: seq<Timed>): State
    decreases |es|
  {
    if es == [] then s else Run(Step(s, es[0]), es[1..])
  }

  function Start(now: int): State {
    State(now, false, false, now, Unset, false, None, None, NewConn(), [])
  }

  // ---------- The deadline ----------

  /** From here on nothing may defer a handover: the deadline less its cost, or the resume if that was later. */
  function LatestOf(c: Conn, resumedAt: int): int
    requires c.deadline.Some?
  {
    Max(c.deadline.value - COST_MS, resumedAt)
  }

  ghost predicate OnTime(h: Started) {
    h.conn.deadline.Some? ==> h.at <= Max(LatestOf(h.conn, h.resumedAt), h.conn.knownAt) + POLL_MS
  }

  /** The poll is at most one period away, and it is armed while a goAway waits on a live connection. */
  ghost predicate Watched(s: State) {
    && (s.poll.Some? ==> s.now < s.poll.value <= s.now + POLL_MS)
    && (s.pending && !s.stopped && s.conn.open ==> s.poll.Some?)
    && (s.conn.deadline.Some? && s.conn.open ==> s.pending)
  }

  ghost predicate Timely(s: State) {
    && (s.pending && Running(s) && s.conn.deadline.Some? && s.poll.Some? ==>
          s.poll.value <= LatestOf(s.conn, s.resumedAt) + POLL_MS)
    && forall h <- s.log :: OnTime(h)
  }

  ghost predicate Kept(s: State) {
    Watched(s) && Timely(s)
  }

  /** What a decision taken at `s` may rely on: the poll, if armed, is near, and the decision is not late. */
  ghost predicate Deciding(s: State) {
    && (s.poll.Some? ==> s.now < s.poll.value <= s.now + POLL_MS)
    && (s.conn.deadline.Some? && s.conn.open ==> s.pending)
    && (Running(s) && s.conn.deadline.Some? ==>
          s.now <= Max(LatestOf(s.conn, s.resumedAt), s.conn.knownAt) + POLL_MS)
    && forall h <- s.log :: OnTime(h)
  }

  lemma MaybeRenewKeeps(s: State)
    requires Deciding(s) && (s.muted && s.pending && !s.stopped && s.conn.open ==> s.poll.Some?)
    ensures Kept(MaybeRenew(s)) && MaybeRenew(s).now == s.now
  {
  }

  lemma FireKeeps(s: State)
    requires Kept(s) && s.poll.Some?
    ensures Kept(Fire(s))
  {
    var n := s.(now := s.poll.value, poll := Some(s.poll.value + POLL_MS));
    if s.pending && !s.stopped {
      MaybeRenewKeeps(n);
    }
  }

  lemma {:induction false} AdvanceKeeps(s: State, t: int)
    requires Kept(s) && s.now <= t
    ensures Kept(AdvanceTo(s, t)) && AdvanceTo(s, t).now == t && AdvanceTo(s, t).muted == s.muted
    decreases if s.poll.Some? && s.poll.value <= t then t - s.poll.value + 1 else 0
  {
    if s.poll.Some? && s.poll.value <= t {
      FireKeeps(s);
      AdvanceKeeps(Fire(s), t);
    }
  }

  /** A notice that finds the interview paused, on a live connection, with no poll armed: none is armed for it. */
  predicate Missed(s: State, e: Event) {
    (e.GoAway? || e.ExpiryNears?) && s.muted && s.poll.None? && s.conn.open && !s.stopped
  }

  lemma GoAwayKeeps(s: State, timeLeft: Option<nat>)
    requires Kept(s)
    ensures Kept(Apply(s, GoAway(timeLeft))) <==> !Missed(s, GoAway(timeLeft))
  {
    if Missed(s, GoAway(timeLeft)) {
      assert !Watched(Announced(s, timeLeft));
    } else if s.conn.open {
      MaybeRenewKeeps(Announced(s, timeLeft));
    }
  }

  lemma ExpiryKeeps(s: State)
    requires Kept(s)
    ensures Kept(Apply(s, ExpiryNears)) <==> !Missed(s, ExpiryNears)
  {
    if Missed(s, ExpiryNears) {
      assert !Watched(s.(pending := true));
    } else if !s.stopped {
      MaybeRenewKeeps(s.(pending := true));
    }
  }

  /** One event keeps the deadline exactly when it is not such a notice. */
  lemma ApplyKeeps(s: State, e: Event)
    requires Kept(s)
    ensures Kept(Apply(s, e)) <==> !Missed(s, e)
  {
    match e
    case TurnStateIs(t) => MaybeRenewKeeps(s.(turnState := t));
    case GoAway(timeLeft) => GoAwayKeeps(s, timeLeft);
    case ExpiryNears => ExpiryKeeps(s);
    case _ =>
  }

  /** No notice of the run is missed. */
  predicate NoneMissed(s: State, es: seq<Timed>)
    decreases |es|
  {
    es == [] || (!Missed(AdvanceTo(s, s.now + es[0].after), es[0].event) && NoneMissed(Step(s, es[0]), es[1..]))
  }

  /** After every event of the run the deadline is kept. */
  ghost predicate AlwaysKept(s: State, es: seq<Timed>)
    decreases |es|
  {
    Kept(s) && (es == [] || AlwaysKept(Step(s, es[0]), es[1..]))
  }

  lemma KeptMeans(s: State)
    requires Kept(s)
    ensures forall h <- s.log :: OnTime(h)
    ensures s.pending && Running(s) && s.conn.deadline.Some? ==> s.now < LatestOf(s.conn, s.resumedAt) + POLL_MS
  {
  }

  /**
   The deadline is kept. Whatever is said and whatever the model does, a handover that a goAway with
   deadline D calls for starts no later than one poll after D less the cost of a handover (or after
   the resume, for a session that was paused then), and until it starts that moment has not come. This
   holds all through a run exactly when no notice of it is missed.
   */
  lemma {:induction false} DeadlineIsKept(s: State, es: seq<Timed>)
    requires Kept(s)
    ensures AlwaysKept(s, es) <==> NoneMissed(s, es)
    ensures NoneMissed(s, es) ==> var r := Run(s, es);
            && Kept(r)
            && (forall h <- r.log :: OnTime(h))
            && (r.pending && Running(r) && r.conn.deadline.Some? ==> r.now < LatestOf(r.conn, r.resumedAt) + POLL_MS)
    decreases |es|
  {
    if es == [] {
      KeptMeans(s);
    } else {
      AdvanceKeeps(s, s.now + es[0].after);
      ApplyKeeps(AdvanceTo(s, s.now + es[0].after), es[0].event);
      if Kept(Step(s, es[0])) {
        DeadlineIsKept(Step(s, es[0]), es[1..]);
      }
    }
  }

  lemma StartIsKept(now: int)
    ensures Kept(Start(now)) && Decent(Start(now))
  {
  }

  /** The events after which the code looks at a pending goAway, or drops it. */
  predicate Looks(e: Event) {
    e.GoAway? || e.ExpiryNears? || e.Opened? || e.SocketDies? || e.StopCalled? || e == TurnStateIs(Idle)
  }

  /**
   A goAway that lands while the interview is paused arms no poll. Resumed, the interview then lets
   the deadline pass: unless the model's turn ends or another notice comes, no handover ever starts.
   */
  lemma {:induction false} PausedGoAwayIsForgotten(s: State, es: seq<Timed>)
    requires s.pending && s.poll.None? && forall i | 0 <= i < |es| :: !Looks(es[i].event)
    ensures Run(s, es).pending && Run(s, es).poll.None? && Run(s, es).log == s.log
    decreases |es|
  {
    if es != [] {
      PausedGoAwayIsForgotten(Step(s, es[0]), es[1..]);
    }
  }

  lemma PausedGoAwayArmsNothing(s: State, timeLeft: nat, wait: nat)
    requires s.muted && s.conn.open && !s.stopped && s.poll.None? && timeLeft > 0
    ensures var r := Run(s, [Timed(0, GoAway(Some(timeLeft))), Timed(wait, SetMuted(false))]);
            r.pending && Running(r) && r.conn.deadline == Some(s.now + timeLeft) && r.poll.None? && r.log == s.log
  {
    var a := Timed(0, GoAway(Some(timeLeft)));
    var b := Timed(wait, SetMuted(false));
    var n := Step(s, a);
    assert [a, b][1..] == [b];
    assert Run(s, [a, b]) == Run(n, [b]);
    assert n.poll.None?;
    assert Run(n, [b]) == Run(Step(n, b), []);
  }

  // ---------- The moment ----------

  /** What every handover respects: the model's turn, and the interviewee's. */
  ghost predicate DecentStart(h: Started) {
    var mic, headroom := h.conn.mic, HeadroomAt(h.conn, h.at);
    && (h.stalled ==> !mic.inUtterance && UnansweredMs(h.conn, h.at) >= STALL_CONFIRMED_MS)
    && (!h.stalled && !MustGoAt(h.conn, h.at) ==> !Busy(h.turnState) && (mic.inUtterance ==> mic.spoke == Some(false)))
    && (!h.stalled && headroom > RELAX_BELOW_MS ==>
          // never in an answer that began after the question, nor after a frame of one
          && mic.spoke != Some(true)
          && !mic.heard
          && (mic.spoke == Some(false) || QuietFor(mic, h.at, QUIET_IDEAL_MS)))
  }

  /** The flag is exactly that a frame of such an answer was heard; an utterance under way is such an answer or was under way at the close. */
  ghost predicate Hearing(m: Mic) {
    && (m.heard <==> m.spoke == Some(true))
    && (m.inUtterance ==> m.heard || m.straddles)
    && (m.straddles ==> m.inUtterance)
  }

  ghost predicate Decent(s: State) {
    Hearing(s.conn.mic) && forall h <- s.log :: DecentStart(h)
  }

  lemma MaybeRenewIsDecent(s: State)
    requires Decent(s)
    ensures Decent(MaybeRenew(s))
  {
  }

  lemma {:induction false} AdvanceIsDecent(s: State, t: int)
    requires Decent(s)
    ensures Decent(AdvanceTo(s, t))
    decreases if s.poll.Some? && s.poll.value <= t then t - s.poll.value + 1 else 0
  {
    if s.poll.Some? && s.poll.value <= t {
      MaybeRenewIsDecent(s.(now := s.poll.value, poll := Some(s.poll.value + POLL_MS)));
      AdvanceIsDecent(Fire(s), t);
    }
  }

  lemma ApplyIsDecent(s: State, e: Event)
    requires Decent(s)
    ensures Decent(Apply(s, e))
  {
    match e
    case TurnStateIs(t) => MaybeRenewIsDecent(s.(turnState := t));
    case GoAway(timeLeft) =>
      MaybeRenewIsDecent(Announced(s, timeLeft));
    case ExpiryNears => MaybeRenewIsDecent(s.(pending := true));
    case _ =>
  }

  /**
   Every handover of every run is decent. With more than twelve seconds in hand and a connection that
   still answers, none starts in an answer begun after the question, none while the model is at work.
   */
  lemma {:induction false} HandoversAreDecent(s: State, es: seq<Timed>)
    requires Decent(s)
    ensures Decent(Run(s, es))
    decreases |es|
  {
    if es != [] {
      AdvanceIsDecent(s, s.now + es[0].after);
      ApplyIsDecent(AdvanceTo(s, s.now + es[0].after), es[0].event);
      HandoversAreDecent(Step(s, es[0]), es[1..]);
    }
  }

  /** A moment to hand over at: past the deadline, a stalled reply, or the model at rest and the interviewee too. */
  predicate Moment(s: State) {
    var mic, headroom := s.conn.mic, HeadroomAt(s.conn, s.now);
    || MustGoAt(s.conn, s.now)
    || ReplyStalled(s)
    || (!Busy(s.turnState) && mic.spoke == Some(false))
    || (!Busy(s.turnState) && !mic.inUtterance && QuietFor(mic, s.now, if headroom > RELAX_BELOW_MS then QUIET_IDEAL_MS else QUIET_MIN_MS)
        && (headroom > RELAX_BELOW_MS ==> mic.spoke != Some(true)))
  }

  /** Every moment is taken: a pending handover starts at the first decision made at one, and only then. */
  lemma MomentsAreTaken(s: State)
    requires s.pending && Running(s)
    ensures |MaybeRenew(s).log| == |s.log| + 1 <==> Moment(s)
    ensures Moment(s) ==> !MaybeRenew(s).pending && !MaybeRenew(s).conn.open && MaybeRenew(s).poll.None?
    ensures !Moment(s) ==> MaybeRenew(s).pending && MaybeRenew(s).poll.Some?
  {
  }

  /** Nothing that the model produces or the interviewee says, and nothing that ends the wait another way. */
  predicate Silence(e: Event) {
    e == MicFrame(false) || e.UserText? || e.TurnStateIs?
  }

  /** How long a turn may stay unanswered: less, if the notice that it is waited for landed on that turn. */
  predicate StallLimit(s: State, u: int, limit: int) {
    limit == STALL_MS || (limit == STALL_CONFIRMED_MS && s.during == Some(u))
  }

  /** The turn transcribed at `u` is unanswered and the poll is due within a period of the stall, or of `since`. */
  ghost predicate StillWaiting(s: State, u: int, since: int, limit: int) {
    s.pending ==>
      && StallLimit(s, u, limit)
      && Running(s) && s.conn.awaiting && s.conn.userTurnAt == Some(u) && !s.conn.mic.inUtterance
      && s.poll.Some? && s.now < s.poll.value <= Max(u + limit, since) + POLL_MS
      && s.poll.value <= s.now + POLL_MS
  }

  lemma DecisionEndsStall(s: State, u: int, since: int, limit: int)
    requires s.pending && Running(s) && s.conn.awaiting && s.conn.userTurnAt == Some(u) && !s.conn.mic.inUtterance
    requires StallLimit(s, u, limit)
    requires s.poll.Some? ==> s.now < s.poll.value <= s.now + POLL_MS
    ensures StillWaiting(MaybeRenew(s), u, since, limit) && MaybeRenew(s).now == s.now
  {
  }

  lemma {:induction false} AdvanceEndsStall(s: State, u: int, since: int, limit: int, t: int)
    requires StillWaiting(s, u, since, limit) && s.now <= t
    ensures var n := AdvanceTo(s, t); StillWaiting(n, u, since, limit) && n.now == t
    decreases if s.poll.Some? && s.poll.value <= t then t - s.poll.value + 1 else 0
  {
    if s.poll.Some? && s.poll.value <= t && s.pending {
      DecisionEndsStall(s.(now := s.poll.value, poll := Some(s.poll.value + POLL_MS)), u, since, limit);
      AdvanceEndsStall(Fire(s), u, since, limit, t);
    } else if s.poll.Some? && s.poll.value <= t {
      AdvanceWithoutPoll(Fire(s), t);
    }
  }

  lemma AdvanceWithoutPoll(s: State, t: int)
    requires s.poll.None? && !s.pending
    ensures AdvanceTo(s, t) == s.(now := t)
  {
  }

  lemma SilenceKeepsWaiting(s: State, u: int, since: int, limit: int, e: Event)
    requires StillWaiting(s, u, since, limit) && Silence(e)
    ensures StillWaiting(Apply(s, e), u, since, limit)
  {
    match e
    case TurnStateIs(t) => if s.pending && t == Idle { DecisionEndsStall(s.(turnState := t), u, since, limit); }
    case _ =>
  }

  /**
   A connection that has stopped answering is left. With a handover pending, five seconds (one, if the notice
   landed on the turn) and one poll after a turn was transcribed and not answered, the handover has started, whatever the model is said
   to be doing; the wait does not run to the server's cut.
   */
  lemma {:induction false} StalledConnectionIsLeft(s: State, es: seq<Timed>, u: int, since: int, limit: int)
    requires StillWaiting(s, u, since, limit) && forall i | 0 <= i < |es| :: Silence(es[i].event)
    ensures var r := Run(s, es);
            StillWaiting(r, u, since, limit) && (r.now >= Max(u + limit, since) + POLL_MS ==> !r.pending)
    decreases |es|
  {
    if es != [] {
      AdvanceEndsStall(s, u, since, limit, s.now + es[0].after);
      SilenceKeepsWaiting(AdvanceTo(s, s.now + es[0].after), u, since, limit, es[0].event);
      StalledConnectionIsLeft(Step(s, es[0]), es[1..], u, since, limit);
    }
  }

  /** A state that keeps the deadline is such a state from now on, if it waits for an answer in silence. */
  lemma KeptIsWaiting(s: State, u: int)
    requires Kept(s) && s.pending && Running(s) && s.conn.awaiting && s.conn.userTurnAt == Some(u) && !s.conn.mic.inUtterance
    ensures StillWaiting(s, u, s.now, STALL_MS) && (s.during == Some(u) ==> StillWaiting(s, u, s.now, STALL_CONFIRMED_MS))
  {
  }

  /** The model stays at rest and the interviewee quiet. */
  predicate Rest(e: Event) {
    e == MicFrame(false) || e.UserText? || e.ModelFrame? || e.TurnCloses? || (e.TurnStateIs? && !Busy(e.turnState))
  }

  /** Nobody is at work or speaking, last heard at `q` at the latest, and the poll is due within a period of four quiet seconds. */
  ghost predicate AtRest(s: State, q: int, since: int) {
    s.pending ==>
      && Running(s) && !Busy(s.turnState) && !s.conn.mic.inUtterance && s.conn.mic.spoke != Some(true)
      && (s.conn.mic.lastLoud.Some? ==> s.conn.mic.lastLoud.value <= q)
      && s.poll.Some? && s.now < s.poll.value <= Max(q + QUIET_IDEAL_MS, since) + POLL_MS
      && s.poll.value <= s.now + POLL_MS
  }

  lemma DecisionTakesRest(s: State, q: int, since: int)
    requires s.pending && Running(s) && !Busy(s.turnState) && !s.conn.mic.inUtterance && s.conn.mic.spoke != Some(true)
    requires s.conn.mic.lastLoud.Some? ==> s.conn.mic.lastLoud.value <= q
    requires s.poll.Some? ==> s.now < s.poll.value <= s.now + POLL_MS
    ensures AtRest(MaybeRenew(s), q, since) && MaybeRenew(s).now == s.now
  {
  }

  lemma {:induction false} AdvanceTakesRest(s: State, q: int, since: int, t: int)
    requires AtRest(s, q, since) && s.now <= t
    ensures var n := AdvanceTo(s, t); AtRest(n, q, since) && n.now == t
    decreases if s.poll.Some? && s.poll.value <= t then t - s.poll.value + 1 else 0
  {
    if s.poll.Some? && s.poll.value <= t && s.pending {
      DecisionTakesRest(s.(now := s.poll.value, poll := Some(s.poll.value + POLL_MS)), q, since);
      AdvanceTakesRest(Fire(s), q, since, t);
    } else if s.poll.Some? && s.poll.value <= t {
      AdvanceWithoutPoll(Fire(s), t);
    }
  }

  lemma RestKeepsResting(s: State, q: int, since: int, e: Event)
    requires AtRest(s, q, since) && Rest(e)
    ensures AtRest(Apply(s, e), q, since)
  {
    match e
    case TurnStateIs(t) => if s.pending && t == Idle { DecisionTakesRest(s.(turnState := t), q, since); }
    case _ =>
  }

  /**
   A quiet moment is taken. With a handover pending, the model at rest and no answer begun to its question,
   the handover has started once nobody has been heard for four seconds and one poll.
   */
  lemma {:induction false} RestIsTaken(s: State, es: seq<Timed>, q: int, since: int)
    requires AtRest(s, q, since) && forall i | 0 <= i < |es| :: Rest(es[i].event)
    ensures var r := Run(s, es);
            AtRest(r, q, since) && (r.now >= Max(q + QUIET_IDEAL_MS, since) + POLL_MS ==> !r.pending)
    decreases |es|
  {
    if es != [] {
      AdvanceTakesRest(s, q, since, s.now + es[0].after);
      RestKeepsResting(AdvanceTo(s, s.now + es[0].after), q, since, es[0].event);
      RestIsTaken(Step(s, es[0]), es[1..], q, since);
    }
  }

  /** The microphone is heard on, and neither the turn nor the connection is another. */
  predicate KeepsTurn(e: Event) {
    !e.TurnCloses? && !e.Opened?
  }

  /** A loud frame comes in the run while no utterance is under way. */
  predicate Begins(s: State, es: seq<Timed>)
    decreases |es|
  {
    es != [] &&
    (var n := AdvanceTo(s, s.now + es[0].after);
     (es[0].event == MicFrame(true) && n.conn.open && !n.muted && !n.conn.mic.inUtterance) || Begins(Step(s, es[0]), es[1..]))
  }

  lemma {:induction false} AdvanceKeepsMic(s: State, t: int)
    ensures AdvanceTo(s, t).conn.mic == s.conn.mic && AdvanceTo(s, t).muted == s.muted
    decreases if s.poll.Some? && s.poll.value <= t then t - s.poll.value + 1 else 0
  {
    if s.poll.Some? && s.poll.value <= t {
      AdvanceKeepsMic(Fire(s), t);
    }
  }

  lemma ApplyHears(s: State, e: Event)
    requires KeepsTurn(e)
    ensures var mic, begins := s.conn.mic, e == MicFrame(true) && s.conn.open && !s.muted && !s.conn.mic.inUtterance;
            var after := Apply(s, e).conn.mic;
            && after.spoke == (if begins then Some(true) else mic.spoke)
            && (after.inUtterance ==> mic.inUtterance || begins)
  {
  }

  lemma StepHears(s: State, e: Timed)
    requires KeepsTurn(e.event)
    ensures var at := AdvanceTo(s, s.now + e.after);
            var begins := e.event == MicFrame(true) && at.conn.open && !at.muted && !at.conn.mic.inUtterance;
            && Step(s, e).conn.mic.spoke == (if begins then Some(true) else s.conn.mic.spoke)
            && (Step(s, e).conn.mic.inUtterance ==> s.conn.mic.inUtterance || begins)
  {
    AdvanceKeepsMic(s, s.now + e.after);
    ApplyHears(AdvanceTo(s, s.now + e.after), e.event);
  }

  /** The speech flag, exactly: it is set in a run if a loud frame comes while no utterance is under way, and by nothing else. */
  lemma {:induction false} FlagIsSetByNewSpeech(s: State, es: seq<Timed>)
    requires forall i | 0 <= i < |es| :: KeepsTurn(es[i].event)
    ensures Run(s, es).conn.mic.spoke == if Begins(s, es) then Some(true) else s.conn.mic.spoke
    ensures Run(s, es).conn.mic.inUtterance ==> s.conn.mic.inUtterance || Begins(s, es)
    decreases |es|
  {
    if es != [] {
      StepHears(s, es[0]);
      FlagIsSetByNewSpeech(Step(s, es[0]), es[1..]);
    }
  }

  lemma CloseClearsTheFlag(s: State)
    ensures Apply(s, TurnCloses).conn.mic.spoke == Some(false) && Apply(s, TurnCloses).conn.mic.inUtterance == s.conn.mic.inUtterance
  {
  }

  /** A decision in mid-utterance, the model at rest and more than twelve seconds in hand: only the flag decides it. */
  lemma MidUtterance(s: State)
    requires s.pending && Running(s) && !Busy(s.turnState) && s.conn.mic.inUtterance && HeadroomAt(s.conn, s.now) > RELAX_BELOW_MS
    ensures |MaybeRenew(s).log| == |s.log| + 1 <==> s.conn.mic.spoke == Some(false)
  {
  }

  /**
   Who is cut off in mid-sentence. Whatever comes after the model's turn has closed, a decision taken while
   somebody speaks, with the model at rest and more than twelve seconds in hand, hands over exactly when no
   utterance has begun since; then the one under way was so at the close.
   */
  lemma SpeechDecides(s: State, es: seq<Timed>)
    requires forall i | 0 <= i < |es| :: KeepsTurn(es[i].event)
    requires var r := Run(Apply(s, TurnCloses), es);
             r.pending && Running(r) && !Busy(r.turnState) && r.conn.mic.inUtterance && HeadroomAt(r.conn, r.now) > RELAX_BELOW_MS
    ensures var closed := Apply(s, TurnCloses);
            var r := Run(closed, es);
            && (|MaybeRenew(r).log| == |r.log| + 1 <==> !Begins(closed, es))
            && (!Begins(closed, es) ==> s.conn.mic.inUtterance)
  {
    CloseClearsTheFlag(s);
    FlagIsSetByNewSpeech(Apply(s, TurnCloses), es);
    MidUtterance(Run(Apply(s, TurnCloses), es));
  }

  /**
   Who was already speaking when the model's turn closed is taken not to have begun: the next goAway
   hands over at once, in mid-sentence, however much time is left, and is not recorded as a cut-off.
   */
  lemma SpokenOverTheCloseIsCut(s: State, timeLeft: nat)
    requires Running(s) && s.turnState == Idle && s.conn.mic.inUtterance && !s.conn.awaiting && timeLeft > RELAX_BELOW_MS + COST_MS
    ensures var asked := Apply(Apply(s, TurnCloses), MicFrame(true));
            var r := Apply(asked, GoAway(Some(timeLeft)));
            && |r.log| == |s.log| + 1
            && var h := r.log[|s.log|];
               && h.conn.mic.inUtterance && h.conn.mic.straddles && h.conn.mic.lastLoud == Some(h.at)
               && !h.stalled && !h.cutOff && HeadroomAt(h.conn, h.at) > RELAX_BELOW_MS
  {
  }

  // ---------- One socket ----------

  predicate Announces(e: Event) {
    e.GoAway? || e.ExpiryNears?
  }

  lemma {:induction false} NoticeFree(s: State, es: seq<Timed>)
    requires !s.pending && forall i | 0 <= i < |es| :: !Announces(es[i].event)
    ensures !Run(s, es).pending && Run(s, es).log == s.log
    decreases |es|
  {
    if es != [] {
      AdvanceWithoutNotice(s, s.now + es[0].after);
      ApplyWithoutNotice(AdvanceTo(s, s.now + es[0].after), es[0].event);
      NoticeFree(Step(s, es[0]), es[1..]);
    }
  }

  lemma ApplyWithoutNotice(s: State, e: Event)
    requires !s.pending && !Announces(e)
    ensures !Apply(s, e).pending && Apply(s, e).log == s.log
  {
  }

  lemma {:induction false} AdvanceWithoutNotice(s: State, t: int)
    requires !s.pending
    ensures !AdvanceTo(s, t).pending && AdvanceTo(s, t).log == s.log
    decreases if s.poll.Some? && s.poll.value <= t then t - s.poll.value + 1 else 0
  {
    if s.poll.Some? && s.poll.value <= t {
      AdvanceWithoutNotice(Fire(s), t);
    }
  }

  /** A goAway does not outlive its socket: a new connection hands over only on a notice of its own. */
  lemma GoAwayDiesWithItsSocket(s: State, es: seq<Timed>)
    requires forall i | 0 <= i < |es| :: !Announces(es[i].event)
    ensures Run(Apply(s, Opened), es).log == s.log && !Run(Apply(s, Opened), es).pending
  {
    NoticeFree(Apply(s, Opened), es);
  }
}
