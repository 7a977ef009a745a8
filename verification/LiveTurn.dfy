/**
 The model's turns in a live voice session: when a turn closes, how often the application hears of
 it, and what usage is banked, whatever order the frames, timers, pauses and stops come in, and
 although the application may stop the session from inside its own callbacks.
 */
module LiveTurn {
  import opened LiveTypes
  import opened Numbers
  import opened Options

  datatype Usage = Usage(tokensIn: nat, tokensOut: nat)

  /** One server frame, reduced to what the turn machine reads. */
  datatype Frame = Frame(
    audio: bool,
    modelText: bool,
    agentText: string,
    interrupted: bool,
    generationComplete: bool,
    turnComplete: bool,
    usage: Option<Usage>)

  /** What the application does when it is called back, and how much audio is still to be played. */
  datatype Env = Env(stopsOnIdle: bool, stopsOnComplete: bool, waitMs: int)

  const IDLE_DEFER_MIN_MS: int := 250

  /** The turn being generated, and the two timers that may end it. */
  datatype Turn = Turn(state: TurnState, content: bool, audio: bool, text: string, closeArmed: bool, idleArmed: bool)

  /** `owed`: a closed turn the application has not been told of. Then all closes, notices given and notices dropped. */
  datatype Notice = Notice(owed: bool, closes: nat, announced: nat, cancelled: nat)

  /** The turn's usage, the session's, and every usage frame: the banked segments and the open one. */
  datatype Meter = Meter(turnUsage: Option<Usage>, total: Usage, segments: seq<seq<Usage>>, open: seq<Usage>)

  datatype Machine = Machine(closed: bool, muted: bool, turn: Turn, notice: Notice, meter: Meter)

  function Initial(): Machine {
    Machine(false, false, Turn(Unset, false, false, "", false, false), Notice(false, 0, 0, 0), Meter(None, Usage(0, 0), [], []))
  }

  function MaxUsage(a: Usage, b: Usage): Usage {
    Usage(Max(a.tokensIn, b.tokensIn), Max(a.tokensOut, b.tokensOut))
  }

  function AddUsage(a: Usage, b: Usage): Usage {
    Usage(a.tokensIn + b.tokensIn, a.tokensOut + b.tokensOut)
  }

  function RecordUsage(r: Meter, u: Usage): Meter {
    Meter(Some(MaxUsage(if r.turnUsage.Some? then r.turnUsage.value else Usage(0, 0), u)), r.total, r.segments, r.open + [u])
  }

  /** Add the turn's usage to the session, once. */
  function Bank(r: Meter): Meter {
    if r.turnUsage.None? then r
    else Meter(None, AddUsage(r.total, r.turnUsage.value), r.segments + [r.open], [])
  }

  function Owe(n: Notice): Notice {
    Notice(true, n.closes + 1, n.announced, n.cancelled)
  }

  /** Settle the notice: dropped when paused, else given. */
  function Settle(n: Notice, muted: bool): Notice {
    if !n.owed then n
    else if muted then Notice(false, n.closes, n.announced, n.cancelled + 1)
    else Notice(false, n.closes, n.announced + 1, n.cancelled)
  }

  /** Stop settles the notice, disarms the timers and banks what the turn had used. */
  function Stop(m: Machine): Machine {
    if m.closed then m
    else Machine(true, m.muted, m.turn.(closeArmed := false, idleArmed := false), Settle(m.notice, m.muted), Bank(m.meter))
  }

  /** Settle the notice; the application may stop the session when it is told. */
  function Drain(m: Machine, env: Env): Machine {
    var told := m.(notice := Settle(m.notice, m.muted));
    if m.notice.owed && !m.muted && env.stopsOnComplete then Stop(told) else told
  }

  function SetState(m: Machine, s: TurnState, env: Env): Machine {
    var t := if s != Idle then m.turn.(idleArmed := false) else m.turn;
    if t.state == s then m.(turn := t)
    else
      var n := m.(turn := t.(state := s));
      if s == Idle && env.stopsOnIdle then Stop(n) else n
  }

  /** Something was generated since the last close, or a reply came as text only. */
  predicate Closable(t: Turn) {
    t.content || (!t.audio && t.text != "")
  }

  function Ended(m: Machine): Machine {
    m.(turn := Turn(m.turn.state, false, false, "", false, false), notice := Owe(m.notice), meter := Bank(m.meter))
  }

  function CloseTurn(m: Machine, env: Env): Machine {
    if !Closable(m.turn) then m
    else
      var n := Ended(m);
      if env.waitMs < IDLE_DEFER_MIN_MS then SetState(n, Idle, env) else n.(turn := n.turn.(idleArmed := true))
  }

  function Spoken(m: Machine, f: Frame): Machine {
    m.(turn := m.turn.(content := m.turn.content || f.audio || f.modelText, text := m.turn.text + f.agentText))
  }

  /** The first audio of a turn starts it speaking; any audio calls the salvage off. */
  function HeardAudio(m: Machine, env: Env): Machine {
    var c := m.(turn := m.turn.(closeArmed := false));
    if c.turn.audio then c else SetState(c.(turn := c.turn.(audio := true)), Speaking, env)
  }

  /** What a frame adds to the turn before any close. */
  function Heard(m: Machine, f: Frame, env: Env): Machine {
    var a := Spoken(m, f);
    var b := if f.modelText && !a.turn.audio && a.turn.state != Thinking then SetState(a, Thinking, env) else a;
    if f.audio then HeardAudio(b, env) else b
  }

  function NoteActivity(m: Machine, f: Frame, env: Env): Machine {
    var h := Heard(m, f, env);
    if f.turnComplete then CloseTurn(h.(turn := h.turn.(closeArmed := false)), env)
    else if f.generationComplete then h.(turn := h.turn.(closeArmed := true))
    else h
  }

  function Interrupt(m: Machine, env: Env): Machine {
    SetState(m.(turn := m.turn.(audio := false)), Idle, env)
  }

  function Metered(m: Machine, f: Frame): Machine {
    if f.usage.Some? then m.(meter := RecordUsage(m.meter, f.usage.value)) else m
  }

  /** Activity, then a barge-in, then usage, and last the notice. */
  function OnFrame(m: Machine, f: Frame, env: Env): Machine {
    var a := NoteActivity(m, f, env);
    var b := if f.interrupted then Interrupt(a, env) else a;
    Drain(Metered(b, f), env)
  }

  /** The salvage timer: the turn was generated and its completion never came. */
  function OnCloseTimer(m: Machine, env: Env): Machine {
    if !m.turn.closeArmed then m
    else
      var n := m.(turn := m.turn.(closeArmed := false));
      if !Busy(n.turn.state) then n else Drain(CloseTurn(n, env), env)
  }

  function OnIdleTimer(m: Machine, env: Env): Machine {
    if !m.turn.idleArmed then m
    else
      var n := m.(turn := m.turn.(idleArmed := false));
      Drain(if Busy(n.turn.state) then SetState(n, Idle, env) else n, env)
  }

  datatype Event =
    | FrameArrives(frame: Frame, env: Env)
    | CloseTimerFires(env: Env)
    | IdleTimerFires(env: Env)
    | MuteSet(muted: bool)
    | StopCalled

  function Step(m: Machine, e: Event): Machine {
    match e
    case FrameArrives(f, env) => OnFrame(m, f, env)
    case CloseTimerFires(env) => OnCloseTimer(m, env)
    case IdleTimerFires(env) => OnIdleTimer(m, env)
    case MuteSet(b) => m.(muted := b)
    case StopCalled => Stop(m)
  }

  function Run(m: Machine, es: seq<Event>): Machine
    decreases |es|
  {
    if es == [] then m else Run(Step(m, es[0]), es[1..])
  }

  // ---------- Exactly once ----------

  /** Every closed turn has been announced or dropped, and none is waiting. */
  ghost predicate Settled(m: Machine) {
    !m.notice.owed && Balanced(m.notice)
  }

  /** Inside an event: at most one closed turn is waiting for its notice. */
  ghost predicate Balanced(n: Notice) {
    n.closes == n.announced + n.cancelled + (if n.owed then 1 else 0)
  }

  /** Nothing has been generated since the last close. */
  predicate Spent(t: Turn) {
    !t.content && t.text == ""
  }

  /** From `m` to `n` at most the owed notice is settled, and the words and content of the turn are as they were. */
  ghost predicate OnlySettles(m: Machine, n: Machine) {
    && n.muted == m.muted
    && (n.notice == m.notice || n.notice == Settle(m.notice, m.muted))
    && n.turn.content == m.turn.content && n.turn.text == m.turn.text && n.turn.audio == m.turn.audio
  }

  lemma SetStateSettles(m: Machine, s: TurnState, env: Env)
    ensures OnlySettles(m, SetState(m, s, env))
  {
  }

  lemma DrainSettles(m: Machine, env: Env)
    ensures OnlySettles(m, Drain(m, env)) && Drain(m, env).notice == Settle(m.notice, m.muted)
  {
  }

  /** From `m` to `n` one turn closes, or none, and its notice may already be settled. */
  ghost predicate Closes(m: Machine, n: Machine, one: bool) {
    && n.muted == m.muted
    && if one then (n.notice == Owe(m.notice) || n.notice == Settle(Owe(m.notice), m.muted)) && Spent(n.turn) && !n.turn.audio
       else n.notice == m.notice
  }

  lemma CloseTurnCloses(m: Machine, env: Env)
    requires !m.notice.owed
    ensures Closes(m, CloseTurn(m, env), Closable(m.turn))
    ensures !Closable(m.turn) ==> CloseTurn(m, env) == m
  {
    if Closable(m.turn) {
      SetStateSettles(Ended(m), Idle, env);
    }
  }

  lemma HeardSettles(m: Machine, f: Frame, env: Env)
    requires !m.notice.owed
    ensures var h := Heard(m, f, env);
            && h.muted == m.muted && h.notice == m.notice
            && h.turn.content == (m.turn.content || f.audio || f.modelText)
            && h.turn.text == m.turn.text + f.agentText
            && h.turn.audio == (m.turn.audio || f.audio)
  {
    var a := Spoken(m, f);
    SetStateSettles(a, Thinking, env);
    var b := if f.modelText && !a.turn.audio && a.turn.state != Thinking then SetState(a, Thinking, env) else a;
    var c := b.(turn := b.turn.(closeArmed := false));
    SetStateSettles(c.(turn := c.turn.(audio := true)), Speaking, env);
  }

  /** A completion closes the turn exactly when something was generated since the last close, or came as text alone. */
  predicate Completes(t: Turn, f: Frame) {
    f.turnComplete && (t.content || f.audio || f.modelText || (!t.audio && t.text + f.agentText != ""))
  }

  lemma NoteCloses(m: Machine, f: Frame, env: Env)
    requires !m.notice.owed
    ensures Closes(m, NoteActivity(m, f, env), Completes(m.turn, f))
    ensures !Completes(m.turn, f) ==> var t := NoteActivity(m, f, env).turn;
              t.content == (m.turn.content || f.audio || f.modelText) && t.text == m.turn.text + f.agentText
  {
    HeardSettles(m, f, env);
    var h := Heard(m, f, env);
    if f.turnComplete {
      CloseTurnCloses(h.(turn := h.turn.(closeArmed := false)), env);
    }
  }

  lemma FrameCloses(m: Machine, f: Frame, env: Env)
    requires !m.notice.owed
    ensures var n := OnFrame(m, f, env);
            && n.muted == m.muted
            && n.notice == (if Completes(m.turn, f) then Settle(Owe(m.notice), m.muted) else m.notice)
            && (Completes(m.turn, f) ==> Spent(n.turn))
            && (!Completes(m.turn, f) ==>
                  n.turn.content == (m.turn.content || f.audio || f.modelText) && n.turn.text == m.turn.text + f.agentText)
  {
    NoteCloses(m, f, env);
    var a := NoteActivity(m, f, env);
    SetStateSettles(a.(turn := a.turn.(audio := false)), Idle, env);
    var b := if f.interrupted then Interrupt(a, env) else a;
    DrainSettles(Metered(b, f), env);
  }

  lemma TimersClose(m: Machine, env: Env)
    requires !m.notice.owed
    ensures var n, one := OnCloseTimer(m, env), m.turn.closeArmed && Busy(m.turn.state) && Closable(m.turn);
            && n.muted == m.muted
            && n.notice == (if one then Settle(Owe(m.notice), m.muted) else m.notice)
            && if one then Spent(n.turn) else n.turn.content == m.turn.content && n.turn.text == m.turn.text
    ensures OnlySettles(m, OnIdleTimer(m, env))
  {
    var n := m.(turn := m.turn.(closeArmed := false));
    CloseTurnCloses(n, env);
    DrainSettles(CloseTurn(n, env), env);
    var i := m.(turn := m.turn.(idleArmed := false));
    SetStateSettles(i, Idle, env);
    DrainSettles(if Busy(i.turn.state) then SetState(i, Idle, env) else i, env);
  }

  /** One event: nothing closes, or one turn does and its notice is settled before the event is over. */
  lemma StepCloses(m: Machine, e: Event)
    requires !m.notice.owed
    ensures Step(m, e).notice == m.notice || Step(m, e).notice == Settle(Owe(m.notice), m.muted)
    ensures Step(m, e).notice != m.notice ==> Spent(Step(m, e).turn)
    ensures Quiet(e) && Spent(m.turn) ==> Spent(Step(m, e).turn) && Step(m, e).notice == m.notice
  {
    match e
    case FrameArrives(f, env) => FrameCloses(m, f, env);
    case CloseTimerFires(env) => TimersClose(m, env);
    case IdleTimerFires(env) => TimersClose(m, env);
    case MuteSet(_) =>
    case StopCalled =>
  }

  lemma StepSettles(m: Machine, e: Event)
    requires Settled(m)
    ensures Settled(Step(m, e))
    ensures Step(m, e).notice.cancelled > m.notice.cancelled ==> m.muted
    ensures Step(m, e).notice.announced > m.notice.announced ==> !m.muted
  {
    StepCloses(m, e);
  }

  /**
   Exactly once. After every event of every run each turn that has closed was announced exactly
   once, or dropped because the session was paused; a notice never waits for the next event.
   */
  lemma {:induction false} RunSettles(m: Machine, es: seq<Event>)
    requires Settled(m)
    ensures Settled(Run(m, es))
    decreases |es|
  {
    if es != [] {
      StepSettles(m, es[0]);
      RunSettles(Step(m, es[0]), es[1..]);
    }
  }

  // ---------- When a turn closes ----------

  /** The frame carries nothing that was generated: at most completion, interruption and usage. */
  predicate QuietFrame(f: Frame) {
    !f.audio && !f.modelText && f.agentText == ""
  }

  predicate Quiet(e: Event) {
    e.FrameArrives? ==> QuietFrame(e.frame)
  }

  lemma {:induction false} SpentStays(m: Machine, es: seq<Event>)
    requires Settled(m) && Spent(m.turn) && forall i | 0 <= i < |es| :: Quiet(es[i])
    ensures Run(m, es).notice.closes == m.notice.closes
    decreases |es|
  {
    if es != [] {
      StepSettles(m, es[0]);
      StepCloses(m, es[0]);
      SpentStays(Step(m, es[0]), es[1..]);
    }
  }

  /** However many completion, usage and resumption frames and timers follow, they close a turn at most once between them. */
  lemma {:induction false} QuietRunClosesOnce(m: Machine, es: seq<Event>)
    requires Settled(m) && forall i | 0 <= i < |es| :: Quiet(es[i])
    ensures m.notice.closes <= Run(m, es).notice.closes <= m.notice.closes + 1
    decreases |es|
  {
    if es != [] {
      StepSettles(m, es[0]);
      StepCloses(m, es[0]);
      if Step(m, es[0]).notice == m.notice {
        QuietRunClosesOnce(Step(m, es[0]), es[1..]);
      } else {
        SpentStays(Step(m, es[0]), es[1..]);
      }
    }
  }

  /** A fragment of transcript that trails a closed turn makes the late completion close it again. */
  lemma TrailingTextClosesAgain(env: Env)
    ensures var closed := OnFrame(Initial(), Frame(true, false, "", false, false, true, None), env);
            var trailing := OnFrame(closed, Frame(false, false, "so", false, false, false, None), env);
            OnFrame(trailing, Frame(false, false, "", false, false, true, None), env).notice.closes == 2
  {
  }

  // ---------- The floor ----------

  /**
   Audio of the turn means that the agent is speaking and no idle transition is due; and once a turn has
   closed, an agent that still counts as busy has one coming.
   */
  ghost predicate Floor(m: Machine) {
    && (m.turn.audio ==> m.turn.state == Speaking && !m.turn.idleArmed)
    && (!m.closed && Spent(m.turn) && Busy(m.turn.state) ==> m.turn.idleArmed)
  }

  lemma HeardKeepsFloor(m: Machine, f: Frame, env: Env)
    requires Floor(m)
    ensures Floor(Heard(m, f, env))
  {
  }

  lemma CloseKeepsFloor(m: Machine, env: Env)
    requires m.turn.audio ==> m.turn.state == Speaking && !m.turn.idleArmed
    requires !Closable(m.turn) ==> Floor(m)
    ensures Floor(CloseTurn(m, env))
  {
  }

  lemma NoteKeepsFloor(m: Machine, f: Frame, env: Env)
    requires Floor(m)
    ensures Floor(NoteActivity(m, f, env))
  {
    HeardKeepsFloor(m, f, env);
    var h := Heard(m, f, env);
    CloseKeepsFloor(h.(turn := h.turn.(closeArmed := false)), env);
  }

  lemma DrainKeepsFloor(m: Machine, env: Env)
    requires Floor(m)
    ensures Floor(Drain(m, env))
  {
  }

  lemma InterruptKeepsFloor(m: Machine, env: Env)
    requires Floor(m)
    ensures Floor(Interrupt(m, env))
  {
  }

  lemma FrameKeepsFloor(m: Machine, f: Frame, env: Env)
    requires Floor(m)
    ensures Floor(OnFrame(m, f, env))
  {
    NoteKeepsFloor(m, f, env);
    var a := NoteActivity(m, f, env);
    InterruptKeepsFloor(a, env);
    var b := if f.interrupted then Interrupt(a, env) else a;
    DrainKeepsFloor(Metered(b, f), env);
  }

  lemma TimersKeepFloor(m: Machine, env: Env)
    requires Floor(m)
    ensures Floor(OnCloseTimer(m, env)) && Floor(OnIdleTimer(m, env))
  {
    var n := m.(turn := m.turn.(closeArmed := false));
    CloseKeepsFloor(n, env);
    DrainKeepsFloor(CloseTurn(n, env), env);
    if m.turn.idleArmed {
      var i := m.(turn := m.turn.(idleArmed := false));
      DrainKeepsFloor(if Busy(i.turn.state) then SetState(i, Idle, env) else i, env);
    }
  }

  lemma StepKeepsFloor(m: Machine, e: Event)
    requires Floor(m)
    ensures Floor(Step(m, e))
  {
    match e
    case FrameArrives(f, env) => FrameKeepsFloor(m, f, env);
    case CloseTimerFires(env) => TimersKeepFloor(m, env);
    case IdleTimerFires(env) => TimersKeepFloor(m, env);
    case MuteSet(_) =>
    case StopCalled =>
  }

  /** The floor is always given back: in every run, a closed turn leaves the agent at rest or about to be. */
  lemma {:induction false} FloorIsReleased(m: Machine, es: seq<Event>)
    requires Floor(m)
    ensures Floor(Run(m, es))
    decreases |es|
  {
    if es != [] {
      StepKeepsFloor(m, es[0]);
      FloorIsReleased(Step(m, es[0]), es[1..]);
    }
  }

  lemma InitialHoldsNoFloor()
    ensures Floor(Initial()) && Settled(Initial())
  {
  }

  // ---------- Usage ----------

  function MaxOf(us: seq<Usage>): Usage {
    if us == [] then Usage(0, 0) else MaxUsage(MaxOf(us[..|us| - 1]), us[|us| - 1])
  }

  function SumOfMax(segments: seq<seq<Usage>>): Usage {
    if segments == [] then Usage(0, 0) else AddUsage(SumOfMax(segments[..|segments| - 1]), MaxOf(segments[|segments| - 1]))
  }

  function Flatten(segments: seq<seq<Usage>>): seq<Usage> {
    if segments == [] then [] else Flatten(segments[..|segments| - 1]) + segments[|segments| - 1]
  }

  function UsageOf(e: Event): seq<Usage> {
    if e.FrameArrives? && e.frame.usage.Some? then [e.frame.usage.value] else []
  }

  function UsageOfAll(es: seq<Event>): seq<Usage> {
    if es == [] then [] else UsageOf(es[0]) + UsageOfAll(es[1..])
  }

  /** The total is the sum over the closed segments; the turn's usage is the maximum of the open one. */
  ghost predicate Exact(r: Meter) {
    && r.total == SumOfMax(r.segments)
    && (r.turnUsage.None? <==> r.open == [])
    && (r.turnUsage.Some? ==> r.turnUsage.value == MaxOf(r.open))
  }

  /** Every usage frame seen, in order of arrival. */
  function Seen(r: Meter): seq<Usage> {
    Flatten(r.segments) + r.open
  }

  lemma BankIsExact(r: Meter)
    ensures Seen(Bank(r)) == Seen(r)
    ensures Exact(r) ==> Exact(Bank(r)) && Bank(r).open == []
  {
    if r.turnUsage.Some? {
      assert Bank(r).segments[..|r.segments|] == r.segments;
    }
  }

  lemma RecordIsExact(r: Meter, u: Usage)
    ensures Seen(RecordUsage(r, u)) == Seen(r) + [u]
    ensures Exact(r) ==> Exact(RecordUsage(r, u))
  {
    assert (r.open + [u])[..|r.open|] == r.open;
  }

  /** All that a step other than recording can do to the meter. */
  ghost predicate Banks(r: Meter, s: Meter) {
    s == r || s == Bank(r)
  }

  lemma BankTwice(r: Meter)
    ensures Bank(Bank(r)) == Bank(r)
  {
  }

  lemma HeardBanks(m: Machine, f: Frame, env: Env)
    ensures Banks(m.meter, Heard(m, f, env).meter)
  {
  }

  lemma NoteBanks(m: Machine, f: Frame, env: Env)
    ensures Banks(m.meter, NoteActivity(m, f, env).meter)
  {
    HeardBanks(m, f, env);
    var h := Heard(m, f, env);
    assert Banks(h.meter, CloseTurn(h.(turn := h.turn.(closeArmed := false)), env).meter);
  }

  lemma FrameBanks(m: Machine, f: Frame, env: Env)
    ensures exists r :: Banks(m.meter, r) && Banks(if f.usage.Some? then RecordUsage(r, f.usage.value) else r, OnFrame(m, f, env).meter)
  {
    NoteBanks(m, f, env);
    var a := NoteActivity(m, f, env);
    var b := if f.interrupted then Interrupt(a, env) else a;
    assert Banks(a.meter, b.meter);
    assert Banks(m.meter, b.meter);
    assert Banks(Metered(b, f).meter, OnFrame(m, f, env).meter);
  }

  lemma OtherBanks(m: Machine, e: Event)
    requires !e.FrameArrives?
    ensures Banks(m.meter, Step(m, e).meter)
  {
  }

  lemma StepIsExact(m: Machine, e: Event)
    ensures Exact(m.meter) ==> Exact(Step(m, e).meter)
    ensures Seen(Step(m, e).meter) == Seen(m.meter) + UsageOf(e)
  {
    if e.FrameArrives? {
      FrameBanks(m, e.frame, e.env);
      var r :| Banks(m.meter, r) && Banks(if e.frame.usage.Some? then RecordUsage(r, e.frame.usage.value) else r, Step(m, e).meter);
      BanksIsExact(m.meter, r);
      if e.frame.usage.Some? {
        RecordIsExact(r, e.frame.usage.value);
        BanksIsExact(RecordUsage(r, e.frame.usage.value), Step(m, e).meter);
      } else {
        BanksIsExact(r, Step(m, e).meter);
      }
    } else {
      OtherBanks(m, e);
      BanksIsExact(m.meter, Step(m, e).meter);
    }
  }

  lemma BanksIsExact(r: Meter, s: Meter)
    requires Banks(r, s)
    ensures Seen(s) == Seen(r) && (Exact(r) ==> Exact(s))
  {
    BankIsExact(r);
  }

  lemma Associates<T>(a: seq<T>, b: seq<T>, c: seq<T>)
    ensures (a + b) + c == a + (b + c)
  {
  }

  /**
   Conservation of usage. Over any run every usage frame is in exactly one segment, in the order of
   arrival, and the session's total is the sum over the closed segments of each one's maximum.
   */
  lemma {:induction false} RunIsExact(m: Machine, es: seq<Event>)
    requires Exact(m.meter)
    ensures Exact(Run(m, es).meter)
    ensures Seen(Run(m, es).meter) == Seen(m.meter) + UsageOfAll(es)
    decreases |es|
  {
    if es != [] {
      var n := Step(m, es[0]);
      StepIsExact(m, es[0]);
      RunIsExact(n, es[1..]);
      Associates(Seen(m.meter), UsageOf(es[0]), UsageOfAll(es[1..]));
    } else {
      assert Seen(m.meter) + [] == Seen(m.meter);
    }
  }

  /** The state a frame has brought the turn to when its completion or its interruption is looked at. */
  function StateHeard(t: Turn, f: Frame): TurnState {
    if f.audio && !t.audio then Speaking
    else if f.modelText && !t.audio then Thinking
    else t.state
  }

  /**
   The frame makes an agent that was not idle idle, at once, and the application stops the session when
   it hears of that: the stop comes from inside the frame's handler, before the frame's usage is looked at.
   */
  predicate StopsBeforeUsage(t: Turn, f: Frame, env: Env) {
    && env.stopsOnIdle && StateHeard(t, f) != Idle
    && ((Completes(t, f) && env.waitMs < IDLE_DEFER_MIN_MS) || f.interrupted)
  }

  /** The usage a stopping event leaves out of what the session reports. */
  function LeftOut(m: Machine, e: Event): seq<Usage> {
    if e.FrameArrives? && StopsBeforeUsage(m.turn, e.frame, e.env) then UsageOf(e) else []
  }

  lemma HeardStays(m: Machine, f: Frame, env: Env)
    requires !m.closed
    ensures var h := Heard(m, f, env);
            !h.closed && h.meter == m.meter && h.turn.state == StateHeard(m.turn, f) && Closable(h.turn) == Closable(Spoken(m, f).turn)
  {
  }

  /** A session that was stopped, or is, has banked what came before; only the other one can still go on. */
  ghost predicate StoppedOr(m: Machine, n: Machine, stops: bool) {
    n.closed == stops && (stops ==> n.meter == Bank(m.meter) && n.turn.state == Idle && Disarmed(n.turn)) && Banks(m.meter, n.meter)
  }

  /** No timer is left that could change anything. */
  predicate Disarmed(t: Turn) {
    !t.closeArmed && !t.idleArmed
  }

  lemma NoteStops(m: Machine, f: Frame, env: Env)
    requires !m.closed
    ensures var stops := env.stopsOnIdle && StateHeard(m.turn, f) != Idle && Completes(m.turn, f) && env.waitMs < IDLE_DEFER_MIN_MS;
            var n := NoteActivity(m, f, env);
            StoppedOr(m, n, stops) && (n.turn.state == StateHeard(m.turn, f) || (n.turn.state == Idle && Completes(m.turn, f) && env.waitMs < IDLE_DEFER_MIN_MS))
  {
    HeardStays(m, f, env);
    BankTwice(m.meter);
    var h := Heard(m, f, env);
    assert Closable(h.turn) && f.turnComplete <==> Completes(m.turn, f);
  }

  lemma ActivityStops(m: Machine, f: Frame, env: Env)
    requires !m.closed
    ensures var a := NoteActivity(m, f, env);
            StoppedOr(m, if f.interrupted then Interrupt(a, env) else a, StopsBeforeUsage(m.turn, f, env))
  {
    NoteStops(m, f, env);
    BankTwice(m.meter);
  }

  lemma FrameLeavesOut(m: Machine, f: Frame, env: Env)
    requires !m.closed && Exact(m.meter) && OnFrame(m, f, env).closed
    ensures OnFrame(m, f, env).meter.open == LeftOut(m, FrameArrives(f, env)) && Disarmed(OnFrame(m, f, env).turn)
  {
    var a := NoteActivity(m, f, env);
    var b := if f.interrupted then Interrupt(a, env) else a;
    ActivityStops(m, f, env);
    BankIsExact(m.meter);
    if f.usage.Some? {
      RecordIsExact(b.meter, f.usage.value);
    }
    BankIsExact(Metered(b, f).meter);
  }

  /** Nothing is open and nothing armed once it is stopped. */
  ghost predicate AllBanked(m: Machine) {
    Exact(m.meter) && (m.closed ==> m.meter.open == [] && Disarmed(m.turn))
  }

  lemma SetStateBanksAll(m: Machine, s: TurnState, env: Env)
    requires AllBanked(m)
    ensures AllBanked(SetState(m, s, env))
  {
    BankIsExact(m.meter);
  }

  lemma DrainBanksAll(m: Machine, env: Env)
    requires AllBanked(m)
    ensures AllBanked(Drain(m, env))
  {
    BankIsExact(m.meter);
  }

  lemma CloseTurnBanksAll(m: Machine, env: Env)
    requires !m.closed && AllBanked(m)
    ensures AllBanked(CloseTurn(m, env))
  {
    if Closable(m.turn) {
      BankIsExact(m.meter);
      SetStateBanksAll(Ended(m), Idle, env);
    }
  }

  lemma TimersBankAll(m: Machine, env: Env)
    requires !m.closed && AllBanked(m)
    ensures AllBanked(OnCloseTimer(m, env)) && AllBanked(OnIdleTimer(m, env))
  {
    var n := m.(turn := m.turn.(closeArmed := false));
    CloseTurnBanksAll(n, env);
    DrainBanksAll(CloseTurn(n, env), env);
    var i := m.(turn := m.turn.(idleArmed := false));
    SetStateBanksAll(i, Idle, env);
    DrainBanksAll(if Busy(i.turn.state) then SetState(i, Idle, env) else i, env);
  }

  lemma StopLeavesOut(m: Machine, e: Event)
    requires !m.closed && Exact(m.meter) && Step(m, e).closed
    ensures Step(m, e).meter.open == LeftOut(m, e) && Disarmed(Step(m, e).turn)
  {
    match e
    case FrameArrives(f, env) => FrameLeavesOut(m, f, env);
    case CloseTimerFires(env) => TimersBankAll(m, env);
    case IdleTimerFires(env) => TimersBankAll(m, env);
    case MuteSet(_) =>
    case StopCalled => BankIsExact(m.meter);
  }

  /** What a stopping event leaves: all usage received is banked, but what the event leaves out. */
  ghost predicate Reports(m: Machine, e: Event, received: seq<Usage>) {
    var r := Step(m, e).meter;
    && r.open == LeftOut(m, e)
    && (r.open == [] <==> !(e.FrameArrives? && e.frame.usage.Some? && StopsBeforeUsage(m.turn, e.frame, e.env)))
    && r.total == SumOfMax(r.segments)
    && Flatten(r.segments) + r.open == received + UsageOf(e)
    && Disarmed(Step(m, e).turn)
  }

  lemma StopReports(m: Machine, e: Event)
    requires Exact(m.meter) && !m.closed && Step(m, e).closed
    ensures Reports(m, e, Seen(m.meter))
  {
    StepIsExact(m, e);
    StopLeavesOut(m, e);
  }

  /**
   What a session has banked when it stops, however and from wherever it is stopped: every usage frame it
   had received, except exactly the usage of a frame from inside whose own handler it is stopped before
   that usage is looked at.
   */
  lemma StopReportsAll(es: seq<Event>, e: Event)
    requires !Run(Initial(), es).closed && Step(Run(Initial(), es), e).closed
    ensures Reports(Run(Initial(), es), e, UsageOfAll(es))
  {
    RunIsExact(Initial(), es);
    assert Seen(Initial().meter) + UsageOfAll(es) == UsageOfAll(es);
    StopReports(Run(Initial(), es), e);
  }

  /** A turn's usage rides on the frame that completes it: with a stop at the turn's end it is not reported. */
  lemma LastTurnIsLeftOut(u: Usage)
    ensures var m := Run(Initial(), [FrameArrives(Frame(true, false, "", false, false, true, Some(u)), Env(true, false, 0))]);
            m.closed && m.meter.total == Usage(0, 0) && m.meter.segments == [] && m.meter.open == [u]
  {
    var e := FrameArrives(Frame(true, false, "", false, false, true, Some(u)), Env(true, false, 0));
    StopLeavesOut(Initial(), e);
    assert [e][1..] == [];
  }

  /** Nothing but another frame changes what a stopped session has banked: what was left out stays out. */
  lemma {:induction false} LeftOutForGood(m: Machine, es: seq<Event>)
    requires m.closed && Disarmed(m.turn) && forall i | 0 <= i < |es| :: !es[i].FrameArrives?
    ensures Run(m, es).meter == m.meter
    decreases |es|
  {
    if es != [] {
      LeftOutForGood(Step(m, es[0]), es[1..]);
    }
  }
}
