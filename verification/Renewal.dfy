/**
 The renewal chain: what happens when a live session ends and the interview is to go on. Which ends
 are renewed, how often and after how long a replacement is asked for, and when the page is told.
 */
module Renewal {
  import opened Numbers

  const MAX_RENEWALS: nat := 40
  const MAX_RENEW_RETRIES: nat := 6
  const RENEW_RETRY_MS: nat := 4000
  const RENEW_RETRY_MAX_MS: nat := 20000
  const SOCKET_SETTLE_MS: nat := 1500
  const RENEW_BACKOFF_MS: nat := 1500
  const QUOTA_BACKOFF_MS: nat := 15000
  const QUOTA_BACKOFF_MAX_MS: nat := 120000
  const MAX_QUOTA_RETRIES: nat := 4
  const MAX_AUDIO_REJECTIONS: nat := 3
  const MAX_INTERVIEW_MS: nat := 10800000

  const DELIBERATE: seq<string> :=
    ["finished", "interview_finished", "user_stopped", "stopped", "paused", "renew_failed", "restart", "page_unload"]

  const LAPSES: seq<string> :=
    ["max_duration", "socket_closed", "error", "goaway", "live_suspended", "renew_silent_retry", "live_socket_error"]

  const REFUSALS: seq<string> :=
    ["too_many_live_sessions", "live_not_configured", "live_free_tier_blocked", "over_budget", "budget_exceeded",
     "invalid_input", "forbidden", "unauthorized"]

  /** `<=` on strings is "is a prefix of". */
  predicate IsRenewable(reason: string) {
    reason !in DELIBERATE && ("closed:" <= reason || reason in LAPSES)
  }

  datatype Failure = Failure(code: string, status: nat)

  /** The network, not a refusal: no status at all, or one from 500 up. */
  predicate IsTransient(e: Failure) {
    e.code !in REFUSALS && !(400 <= e.status < 500)
  }

  /** How a session ended, and how long the interview has run. */
  datatype End = End(reason: string, quota: bool, rejected: bool, elapsedMs: nat)

  /** What one lapse carries through all its attempts. */
  datatype Lapse = Lapse(quotaMs: nat, rejected: bool, settleMs: nat)

  datatype Chain = Quiet | Waiting(lapse: Lapse) | Minting(lapse: Lapse)

  datatype Note =
    | Renewing(renewal: nat, reason: string)
    | Renewed(renewal: nat)
    | Ended(reason: string)
    | QuotaExhausted(consecutive: nat, waitMs: nat)

  /** History: replacements asked for in all, and in the current lapse the same, the time waited, and the streak it began with. */
  datatype Tally = Tally(mints: nat, attempts: nat, waitedMs: nat, streak: nat)

  datatype State = State(
    stopped: bool, muted: bool, open: bool, renewals: nat, retries: nat, quotaHits: nat, rejections: nat,
    chain: Chain, page: seq<Note>, tally: Tally)

  function RetryWaitMs(retries: nat): nat {
    if retries == 0 then 0 else Min(RENEW_RETRY_MAX_MS, RENEW_RETRY_MS * Pow2(retries - 1))
  }

  function QuotaWaitMs(hits: nat): nat {
    if hits == 0 then 0 else Min(QUOTA_BACKOFF_MAX_MS, QUOTA_BACKOFF_MS * Pow2(hits - 1))
  }

  function RenewWaitMs(l: Lapse, retries: nat): nat {
    Max(Max(l.quotaMs, if l.rejected then RENEW_BACKOFF_MS else 0), Max(l.settleMs, RetryWaitMs(retries)))
  }

  // ---------- Steps ----------

  /** Ask for a replacement session. */
  function Mint(s: State, l: Lapse): State {
    s.(chain := Minting(l), tally := s.tally.(mints := s.tally.mints + 1, attempts := s.tally.attempts + 1))
  }

  function Attempt(s: State, l: Lapse): State {
    var wait := RenewWaitMs(l, s.retries);
    if wait == 0 then Mint(s, l)
    else s.(chain := Waiting(l), tally := s.tally.(waitedMs := s.tally.waitedMs + wait))
  }

  function Tell(s: State, n: Note): State {
    s.(page := s.page + [n])
  }

  function Finish(s: State, reason: string): State {
    Tell(s.(stopped := true), Ended(reason))
  }

  /** The counters of consecutive quota and audio refusals, and the page's word of the former. */
  function Count(s: State, e: End): State {
    var n := s.(quotaHits := if e.quota then s.quotaHits + 1 else 0);
    if e.quota then Tell(n, QuotaExhausted(n.quotaHits, QuotaWaitMs(n.quotaHits))) else n
  }

  predicate Renews(s: State, e: End) {
    IsRenewable(e.reason) && !s.stopped && !s.muted && e.elapsedMs < MAX_INTERVIEW_MS && s.renewals < MAX_RENEWALS
  }

  function Renew(s: State, e: End): State {
    var l := Lapse(QuotaWaitMs(s.quotaHits), e.rejected, if e.reason == "live_socket_error" then SOCKET_SETTLE_MS else 0);
    var n := Tell(s.(renewals := s.renewals + 1), Renewing(s.renewals + 1, e.reason));
    Attempt(n.(tally := Tally(n.tally.mints, 0, 0, n.retries)), l)
  }

  /** Three refused codecs in a row end the live path; otherwise the session is renewed, or it was the end. */
  function RenewOrEnd(s: State, e: End): State {
    if e.rejected && s.rejections >= MAX_AUDIO_REJECTIONS then Finish(s, "audio_rejected")
    else if Renews(s, e) then Renew(s, e)
    else Tell(s.(stopped := s.stopped || !s.muted), Ended(e.reason))
  }

  /** A session ended. While a renewal is in flight, the renewal decides and the page hears nothing. */
  function OnEnded(s: State, e: End): State {
    var dead := s.(open := false);
    if s.chain != Quiet then dead
    else
      var q := Count(dead, e);
      if e.quota && q.quotaHits > MAX_QUOTA_RETRIES then Finish(q, "quota_exhausted")
      else RenewOrEnd(q.(rejections := if e.rejected then q.rejections + 1 else 0), e)
  }

  /** The backoff is over. If the interview was stopped or paused meanwhile, the renewal is abandoned. */
  function OnWaitOver(s: State): State {
    if !s.chain.Waiting? then s
    else if s.stopped || s.muted then s.(chain := Quiet)
    else Mint(s, s.chain.lapse)
  }

  function OnMinted(s: State): State {
    if !s.chain.Minting? then s
    else Tell(s.(chain := Quiet, open := true, retries := 0), Renewed(s.renewals))
  }

  function OnMintFailed(s: State, e: Failure): State {
    if !s.chain.Minting? then s
    else if IsTransient(e) && !s.stopped && !s.muted && s.retries < MAX_RENEW_RETRIES then
      Attempt(Tell(s.(retries := s.retries + 1), Renewing(s.renewals, "reconnecting")), s.chain.lapse)
    else Finish(s.(chain := Quiet), "renew_failed")
  }

  datatype Event =
    | Started
    | SessionEnds(end: End)
    | WaitOver
    | Minted
    | MintFails(failure: Failure)
    | MuteSet(muted: bool)
    | StopCalled(end: End)

  function Step(s: State, e: Event): State {
    match e
    case Started => s.(open := true)
    case SessionEnds(end) => if s.open then OnEnded(s, end) else s
    case WaitOver => OnWaitOver(s)
    case Minted => OnMinted(s)
    case MintFails(f) => OnMintFailed(s, f)
    case MuteSet(m) => s.(muted := m)
    case StopCalled(end) =>
      var n := s.(stopped := true);
      if n.open then OnEnded(n, end) else n
  }

  function Run(s: State, es: seq<Event>): State
    decreases |es|
  {
    if es == [] then s else Run(Step(s, es[0]), es[1..])
  }

  function Initial(): State {
    State(false, false, false, 0, 0, 0, 0, Quiet, [], Tally(0, 0, 0, 0))
  }

  // ---------- How much one lapse can cost ----------

  /** All the retry waits of a streak that goes from `a` to `b`. */
  function RetrySum(a: nat, b: nat): nat
    requires a <= b
    decreases b - a
  {
    if a == b then RetryWaitMs(b) else RetrySum(a, b - 1) + RetryWaitMs(b)
  }

  lemma RetryWaits()
    ensures RetryWaitMs(1) == 4000 && RetryWaitMs(2) == 8000 && RetryWaitMs(3) == 16000
    ensures RetryWaitMs(4) == 20000 && RetryWaitMs(5) == 20000 && RetryWaitMs(6) == 20000
  {
    assert Pow2(1) == 2 && Pow2(2) == 4;
    assert Pow2(3) == 8 && Pow2(4) == 16;
    assert Pow2(5) == 32;
  }

  lemma RetrySumBound(a: nat, b: nat)
    requires a <= b <= MAX_RENEW_RETRIES
    ensures RetrySum(a, b) <= 88000
  {
    RetryWaits();
    if a < b && b > 0 { RetrySumBound2(a, b); }
  }

  lemma {:induction false} RetrySumBound2(a: nat, b: nat)
    requires a <= b <= MAX_RENEW_RETRIES
    ensures RetrySum(a, b) <= (if b == 0 then 0 else if b == 1 then 4000 else if b == 2 then 12000 else if b == 3 then 28000
                               else if b == 4 then 48000 else if b == 5 then 68000 else 88000)
    decreases b - a
  {
    RetryWaits();
    if a < b { RetrySumBound2(a, b - 1); }
  }

  /** The waits before the very first retry: a settling socket or a refused codec. */
  const FIRST_MS: nat := 1500

  /** What holds of the current lapse, and of all of them together. */
  ghost predicate Bounded(s: State) {
    WithinBounds(s.renewals, s.retries, s.chain, s.tally)
  }

  ghost predicate WithinBounds(renewals: nat, retries: nat, chain: Chain, t: Tally) {
    && renewals <= MAX_RENEWALS
    && retries <= MAX_RENEW_RETRIES
    && t.mints <= (MAX_RENEW_RETRIES + 1) * renewals
    && t.streak <= MAX_RENEW_RETRIES
    && (chain != Quiet ==> InLapse(renewals, retries, chain, t))
    && LapseDone(t)
  }

  ghost predicate InLapse(renewals: nat, retries: nat, chain: Chain, t: Tally)
    requires chain != Quiet
  {
    var l := chain.lapse;
    && 1 <= renewals
    && l.settleMs <= FIRST_MS && l.quotaMs <= QUOTA_BACKOFF_MAX_MS
    && t.streak <= retries
    && t.attempts == retries - t.streak + (if chain.Minting? then 1 else 0)
    && t.mints <= (MAX_RENEW_RETRIES + 1) * (renewals - 1) + t.attempts
    && (l.quotaMs == 0 ==> t.waitedMs <= FIRST_MS + RetrySum(t.streak, retries))
    && t.waitedMs <= QUOTA_BACKOFF_MAX_MS * (retries - t.streak + 1)
  }

  /** At most seven attempts in a lapse, fewer after an abandoned one; at most fourteen minutes of waiting. */
  ghost predicate LapseDone(t: Tally) {
    t.attempts + t.streak <= MAX_RENEW_RETRIES + 1 && t.waitedMs <= QUOTA_BACKOFF_MAX_MS * (MAX_RENEW_RETRIES + 1)
  }

  lemma WaitIsBounded(l: Lapse, retries: nat)
    requires l.settleMs <= FIRST_MS && l.quotaMs <= QUOTA_BACKOFF_MAX_MS && retries <= MAX_RENEW_RETRIES
    ensures RenewWaitMs(l, retries) <= QUOTA_BACKOFF_MAX_MS
    ensures l.quotaMs == 0 && retries > 0 ==> RenewWaitMs(l, retries) == RetryWaitMs(retries)
    ensures l.quotaMs == 0 && retries == 0 ==> RenewWaitMs(l, retries) <= FIRST_MS
  {
    RetryWaits();
  }

  /** A lapse begins: the first attempt. */
  lemma RenewIsBounded(s: State, e: End)
    requires Bounded(s) && s.chain == Quiet && s.renewals < MAX_RENEWALS
    ensures Bounded(Renew(s, e))
  {
    var l := Lapse(QuotaWaitMs(s.quotaHits), e.rejected, if e.reason == "live_socket_error" then SOCKET_SETTLE_MS else 0);
    WaitIsBounded(l, s.retries);
    assert RetrySum(s.retries, s.retries) == RetryWaitMs(s.retries);
  }

  lemma MintFailedIsBounded(s: State, e: Failure)
    requires Bounded(s) && s.chain.Minting?
    ensures Bounded(OnMintFailed(s, e))
  {
    if s.retries < MAX_RENEW_RETRIES {
      WaitIsBounded(s.chain.lapse, s.retries + 1);
      RetryWaits();
      assert RetrySum(s.tally.streak, s.retries + 1) == RetrySum(s.tally.streak, s.retries) + RetryWaitMs(s.retries + 1);
    }
  }

  lemma StepIsBounded(s: State, e: Event)
    requires Bounded(s)
    ensures Bounded(Step(s, e))
  {
    match e
    case SessionEnds(end) => EndIsBounded(s, end);
    case StopCalled(end) => EndIsBounded(s.(stopped := true), end);
    case MintFails(f) => if s.chain.Minting? { MintFailedIsBounded(s, f); }
    case _ =>
  }

  lemma EndIsBounded(s: State, e: End)
    requires Bounded(s)
    ensures Bounded(OnEnded(s, e))
  {
    if s.chain == Quiet {
      var q := Count(s.(open := false), e);
      var r := q.(rejections := if e.rejected then q.rejections + 1 else 0);
      if Renews(r, e) { RenewIsBounded(r, e); }
    }
  }

  /**
   The chain is bounded over every run: at most forty renewals, at most seven replacements asked for in
   each, and in a lapse that is not rate-limited at most 88 seconds of retry backoff after the first wait.
   */
  lemma {:induction false} RunIsBounded(s: State, es: seq<Event>)
    requires Bounded(s)
    ensures var r := Run(s, es);
            && Bounded(r)
            && r.renewals <= 40 && r.tally.mints <= 280 && r.tally.attempts + r.tally.streak <= 7
            && (r.chain != Quiet && r.chain.lapse.quotaMs == 0 ==> r.tally.waitedMs <= FIRST_MS + 88000)
    decreases |es|
  {
    if es != [] {
      StepIsBounded(s, es[0]);
      RunIsBounded(Step(s, es[0]), es[1..]);
    } else if s.chain != Quiet {
      RetrySumBound(s.tally.streak, s.retries);
    }
  }

  // ---------- The chain ends ----------

  /** How many more events of its own the chain can take. */
  function Fuel(s: State): nat {
    if s.chain == Quiet then 0
    else 2 * (if s.retries < MAX_RENEW_RETRIES then MAX_RENEW_RETRIES - s.retries else 0) + (if s.chain.Waiting? then 2 else 1)
  }

  predicate Advances(s: State, e: Event) {
    (s.chain.Waiting? && e.WaitOver?) || (s.chain.Minting? && (e.Minted? || e.MintFails?))
  }

  /** Each event the chain waits for brings its end nearer, and no other event puts it off. */
  lemma ChainAdvances(s: State, e: Event)
    requires s.chain != Quiet
    ensures Fuel(Step(s, e)) <= Fuel(s)
    ensures Advances(s, e) ==> Fuel(Step(s, e)) < Fuel(s)
  {
  }

  /** How many events of the run the chain was waiting for, as long as it lasts. */
  function Progress(s: State, es: seq<Event>): nat
    decreases |es|
  {
    if es == [] || s.chain == Quiet then 0
    else (if Advances(s, es[0]) then 1 else 0) + Progress(Step(s, es[0]), es[1..])
  }

  /** A chain ends within fourteen of its own events, whatever comes between them. */
  lemma {:induction false} ChainTerminates(s: State, es: seq<Event>)
    ensures Progress(s, es) <= Fuel(s) <= 14
    decreases |es|
  {
    if es != [] && s.chain != Quiet {
      ChainAdvances(s, es[0]);
      ChainTerminates(Step(s, es[0]), es[1..]);
    }
  }

  // ---------- What the chain is for ----------

  /** A lapse that is renewed: none of the limits on lapses, quota refusals and codec refusals is reached. */
  predicate Recovers(s: State, e: End) {
    && !(e.quota && s.quotaHits + 1 > MAX_QUOTA_RETRIES)
    && !(e.rejected && s.rejections + 1 >= MAX_AUDIO_REJECTIONS)
    && Renews(s, e)
  }

  function QuotaWord(s: State, e: End): seq<Note> {
    if e.quota then [QuotaExhausted(s.quotaHits + 1, QuotaWaitMs(s.quotaHits + 1))] else []
  }

  /** Why the live path is over, when the lapse is not renewed. */
  function EndingOf(s: State, e: End): string {
    if e.quota && s.quotaHits + 1 > MAX_QUOTA_RETRIES then "quota_exhausted"
    else if e.rejected && s.rejections + 1 >= MAX_AUDIO_REJECTIONS then "audio_rejected"
    else e.reason
  }

  lemma LapseBegins(s: State, e: End)
    requires s.chain == Quiet && Recovers(s, e)
    ensures var a := OnEnded(s, e);
            && a.chain != Quiet && !a.stopped && !a.muted && a.renewals == s.renewals + 1
            && a.page == (s.page + QuotaWord(s, e)) + [Renewing(s.renewals + 1, e.reason)]
  {
  }

  lemma LapseEnds(s: State, e: End)
    requires s.chain == Quiet && !Recovers(s, e)
    ensures var a := OnEnded(s, e);
            && a.chain == Quiet && !a.open && (a.stopped || a.muted) && a.renewals == s.renewals
            && a.page == (s.page + QuotaWord(s, e)) + [Ended(EndingOf(s, e))]
  {
  }

  /** The wait, if there is one, and the replacement. */
  lemma ReplacementComes(s: State)
    requires !s.stopped && !s.muted
    ensures var r := Run(s, [WaitOver, Minted]);
            if s.chain != Quiet then r.open && r.chain == Quiet && r.retries == 0 && !r.stopped && r.renewals == s.renewals
                                     && r.page == s.page + [Renewed(s.renewals)]
            else r == s
  {
    TwoSteps(s);
  }

  lemma TwoSteps(s: State)
    ensures Run(s, [WaitOver, Minted]) == OnMinted(OnWaitOver(s))
  {
    assert [WaitOver, Minted][1..] == [Minted];
    assert Run(OnWaitOver(s), [Minted]) == Run(OnMinted(OnWaitOver(s)), []);
  }

  /**
   A lapse is bridged exactly when it is within the limits: once the wait is over and a replacement has come
   the session is open again, and the page has heard that it was being renewed and that it was; in any other
   case it stays shut and the page has heard of the one end.
   */
  lemma LapseIsRenewed(s: State, e: End)
    requires s.chain == Quiet && s.open
    ensures var r := Run(s, [SessionEnds(e), WaitOver, Minted]);
            && (r.open <==> Recovers(s, e)) && r.chain == Quiet
            && if Recovers(s, e)
               then !r.stopped && r.renewals == s.renewals + 1 && r.retries == 0
                    && r.page == s.page + QuotaWord(s, e) + [Renewing(s.renewals + 1, e.reason)] + [Renewed(s.renewals + 1)]
               else (r.stopped || r.muted) && r.renewals == s.renewals
                    && r.page == s.page + QuotaWord(s, e) + [Ended(EndingOf(s, e))]
  {
    var es := [SessionEnds(e), WaitOver, Minted];
    assert es[1..] == [WaitOver, Minted];
    assert Run(s, es) == Run(OnEnded(s, e), [WaitOver, Minted]);
    if Recovers(s, e) {
      LapseBegins(s, e);
      ReplacementComes(OnEnded(s, e));
    } else {
      LapseEnds(s, e);
      TwoSteps(OnEnded(s, e));
    }
  }

  /** The reasons that a bridge is tried for: a close by the server, whatever its code, and these seven. */
  lemma RenewableExactly(reason: string)
    ensures IsRenewable(reason) <==>
              || (|reason| >= 7 && reason[..7] == "closed:")
              || reason == "max_duration" || reason == "socket_closed" || reason == "error" || reason == "goaway"
              || reason == "live_suspended" || reason == "renew_silent_retry" || reason == "live_socket_error"
  {
    assert LAPSES[0] == "max_duration" && LAPSES[1] == "socket_closed" && LAPSES[2] == "error" && LAPSES[3] == "goaway";
    assert LAPSES[4] == "live_suspended" && LAPSES[5] == "renew_silent_retry" && LAPSES[6] == "live_socket_error";
    if reason in DELIBERATE {
      assert reason[0] != 'c';
    } else if |reason| >= 7 && reason[..7] == "closed:" {
      assert "closed:" <= reason;
    }
  }

  /** `n` transport failures, each waited out. */
  function Outage(n: nat): seq<Event> {
    if n == 0 then [] else [MintFails(Failure("", 0)), WaitOver] + Outage(n - 1)
  }

  lemma {:induction false} RunSplits(s: State, a: seq<Event>, b: seq<Event>)
    ensures Run(s, a + b) == Run(Run(s, a), b)
    decreases |a|
  {
    if a == [] {
      assert a + b == b;
    } else {
      assert (a + b)[0] == a[0] && (a + b)[1..] == a[1..] + b;
      RunSplits(Step(s, a[0]), a[1..], b);
    }
  }

  lemma FailureIsWaitedOut(s: State)
    requires s.chain.Minting? && !s.stopped && !s.muted && s.retries < MAX_RENEW_RETRIES
    ensures var n := Run(s, [MintFails(Failure("", 0)), WaitOver]);
            && n.chain == s.chain && n.retries == s.retries + 1 && !n.stopped && !n.muted && n.renewals == s.renewals
            && n.tally.waitedMs == s.tally.waitedMs + RenewWaitMs(s.chain.lapse, s.retries + 1)
  {
    var es := [MintFails(Failure("", 0)), WaitOver];
    var a := Step(s, es[0]);
    FailureWaits(s);
    assert es[1..] == [WaitOver];
    assert Run(s, es) == Run(a, [WaitOver]);
    assert Run(a, [WaitOver]) == Run(Step(a, WaitOver), []);
  }

  lemma FailureWaits(s: State)
    requires s.chain.Minting? && !s.stopped && !s.muted && s.retries < MAX_RENEW_RETRIES
    ensures var a := Step(s, MintFails(Failure("", 0)));
            && a.chain == Waiting(s.chain.lapse) && a.retries == s.retries + 1 && !a.stopped && !a.muted && a.renewals == s.renewals
            && a.tally.waitedMs == s.tally.waitedMs + RenewWaitMs(s.chain.lapse, s.retries + 1)
  {
    RetryWaits();
    assert RenewWaitMs(s.chain.lapse, s.retries + 1) >= RetryWaitMs(s.retries + 1) > 0;
  }

  lemma {:induction false} OutageIsWaitedOut(s: State, n: nat)
    requires s.chain.Minting? && !s.stopped && !s.muted && s.retries + n <= MAX_RENEW_RETRIES
    ensures var r := Run(s, Outage(n));
            r.chain == s.chain && r.retries == s.retries + n && !r.stopped && !r.muted && r.renewals == s.renewals
    decreases n
  {
    if n > 0 {
      var one := [MintFails(Failure("", 0)), WaitOver];
      FailureIsWaitedOut(s);
      RunSplits(s, one, Outage(n - 1));
      OutageIsWaitedOut(Run(s, one), n - 1);
    }
  }

  /** An interview survives any outage its retries outlast: when the network is back, so is the session, and the streak is forgotten. */
  lemma OutageIsSurvived(s: State, n: nat)
    requires s.chain.Minting? && !s.stopped && !s.muted && s.retries + n <= MAX_RENEW_RETRIES
    ensures var r := Run(s, Outage(n) + [Minted]);
            && r.open && r.chain == Quiet && r.retries == 0 && !r.stopped
            && r.page != [] && r.page[|r.page| - 1] == Renewed(s.renewals)
  {
    OutageIsWaitedOut(s, n);
    RunSplits(s, Outage(n), [Minted]);
    var a := Run(s, Outage(n));
    assert Run(a, [Minted]) == Run(Step(a, Minted), []);
  }

  /** And one failure more ends it, with the page told once. */
  lemma LongerOutageEnds(s: State, n: nat)
    requires s.chain.Minting? && !s.stopped && !s.muted && s.retries + n == MAX_RENEW_RETRIES
    ensures var r := Run(s, Outage(n) + [MintFails(Failure("", 0))]);
            r.stopped && r.chain == Quiet && r.page != [] && r.page[|r.page| - 1] == Ended("renew_failed")
  {
    OutageIsWaitedOut(s, n);
    RunSplits(s, Outage(n), [MintFails(Failure("", 0))]);
    var a := Run(s, Outage(n));
    assert Run(a, [MintFails(Failure("", 0))]) == Run(Step(a, MintFails(Failure("", 0))), []);
  }

  // ---------- After the end ----------

  /** Once stopped, no replacement is ever asked for again. */
  lemma {:induction false} StoppedMintsNothing(s: State, es: seq<Event>)
    requires s.stopped
    ensures Run(s, es).stopped && Run(s, es).tally.mints == s.tally.mints && Run(s, es).renewals == s.renewals
    decreases |es|
  {
    if es != [] {
      StoppedMintsNothing(Step(s, es[0]), es[1..]);
    }
  }

  /** Whatever sessions end while a renewal is in flight, the page hears of none and the renewal goes on. */
  lemma {:induction false} RenewalOwnsTheOutcome(s: State, ends: seq<Event>)
    requires s.chain != Quiet && forall i | 0 <= i < |ends| :: ends[i].SessionEnds?
    ensures Run(s, ends) == s || Run(s, ends) == s.(open := false)
    decreases |ends|
  {
    if ends != [] {
      RenewalOwnsTheOutcome(Step(s, ends[0]), ends[1..]);
    }
  }

  /** How many endings the page has been told of. */
  function Endings(page: seq<Note>): nat {
    if page == [] then 0
    else if page[|page| - 1].Ended? then Endings(page[..|page| - 1]) + 1
    else Endings(page[..|page| - 1])
  }

  function Starts(es: seq<Event>): nat {
    if es == [] then 0
    else if es[0].Started? then 1 + Starts(es[1..])
    else Starts(es[1..])
  }

  /** What can still bring an ending: a session that is open, and a renewal in flight. */
  function Live(s: State): nat {
    (if s.open then 1 else 0) + (if s.chain != Quiet then 1 else 0)
  }

  lemma Heard(page: seq<Note>, n: Note)
    ensures Endings(page + [n]) == Endings(page) + (if n.Ended? then 1 else 0)
  {
    assert (page + [n])[..|page|] == page;
  }

  lemma CountAddsNone(s: State, e: End)
    ensures Endings(Count(s, e).page) == Endings(s.page) && Live(Count(s, e)) == Live(s)
  {
    if e.quota { Heard(s.page, QuotaExhausted(s.quotaHits + 1, QuotaWaitMs(s.quotaHits + 1))); }
  }

  lemma RenewOrEndAddsOne(s: State, e: End)
    requires !s.open && s.chain == Quiet
    ensures var n := RenewOrEnd(s, e); Endings(n.page) + Live(n) == Endings(s.page) + 1
  {
    Heard(s.page, Ended("audio_rejected"));
    Heard(s.page, Ended(e.reason));
    Heard(s.page, Renewing(s.renewals + 1, e.reason));
  }

  lemma EndAddsOne(s: State, e: End)
    requires s.open
    ensures var n := OnEnded(s, e); Endings(n.page) + Live(n) <= Endings(s.page) + Live(s)
  {
    if s.chain == Quiet {
      var q := Count(s.(open := false), e);
      CountAddsNone(s.(open := false), e);
      Heard(q.page, Ended("quota_exhausted"));
      RenewOrEndAddsOne(q.(rejections := if e.rejected then q.rejections + 1 else 0), e);
    }
  }

  lemma MintFailedAddsOne(s: State, f: Failure)
    ensures var n := OnMintFailed(s, f); Endings(n.page) + Live(n) <= Endings(s.page) + Live(s)
  {
    Heard(s.page, Renewing(s.renewals, "reconnecting"));
    Heard(s.page, Ended("renew_failed"));
  }

  /** No event brings an ending but out of something live, and only a start makes anything live. */
  lemma StepAddsOne(s: State, e: Event)
    ensures var n := Step(s, e);
            Endings(n.page) + Live(n) <= Endings(s.page) + Live(s) + (if e.Started? then 1 else 0)
  {
    match e
    case SessionEnds(end) => if s.open { EndAddsOne(s, end); }
    case StopCalled(end) => if s.open { EndAddsOne(s.(stopped := true), end); }
    case MintFails(f) => MintFailedAddsOne(s, f);
    case Minted => Heard(s.page, Renewed(s.renewals));
    case _ =>
  }

  /**
   One failure, one ending. In every run, whatever ends, fails, is stopped or paused and in whatever order, the
   page is told of at most one ending for each session and renewal there was at first and each start since.
   */
  lemma {:induction false} EndsOnce(s: State, es: seq<Event>)
    ensures var r := Run(s, es); Endings(r.page) + Live(r) <= Endings(s.page) + Live(s) + Starts(es)
    decreases |es|
  {
    if es != [] {
      StepAddsOne(s, es[0]);
      EndsOnce(Step(s, es[0]), es[1..]);
    }
  }

  /** So of an interview that is started once the page hears at most one ending, and when it has heard it nothing is left running. */
  lemma OneStartOneEnding(es: seq<Event>)
    ensures Endings(Run(Initial(), es).page) <= Starts(es)
    ensures Endings(Run(Initial(), es).page) == Starts(es) ==> !Run(Initial(), es).open && Run(Initial(), es).chain == Quiet
  {
    EndsOnce(Initial(), es);
  }

  /**
   A replacement that arrives after the interview was stopped is attached all the same: stopped, with
   an open session, and the page told that it was renewed.
   */
  lemma StopDuringMintLeavesASession(s: State, end: End)
    requires s.chain.Minting? && !s.stopped
    ensures var r := Run(s, [StopCalled(end), Minted]);
            r.stopped && r.open && r.page == s.page + [Renewed(s.renewals)]
  {
    var es := [StopCalled(end), Minted];
    assert es[1..] == [Minted];
    assert Run(s, es) == Run(Step(s, es[0]), [Minted]);
    assert Run(Step(s, es[0]), [Minted]) == Run(Step(Step(s, es[0]), Minted), []);
  }

  /**
   A renewal abandoned in a pause keeps its streak: after the resume one transport failure ends the
   interview, where a fresh lapse would have had six retries.
   */
  lemma AbandonedStreakCounts(s: State, lapse: End, f: Failure)
    requires Bounded(s) && s.chain.Waiting? && s.retries == MAX_RENEW_RETRIES && !s.stopped && s.renewals < MAX_RENEWALS
    requires lapse == End("goaway", false, false, 0) && IsTransient(f)
    ensures Run(s, [MuteSet(true), WaitOver, MuteSet(false), Started, SessionEnds(lapse), WaitOver, MintFails(f)]).stopped
  {
    var a := Step(Step(Step(Step(s, MuteSet(true)), WaitOver), MuteSet(false)), Started);
    assert a == s.(muted := false, chain := Quiet, open := true);
    RetryWaits();
    assert IsRenewable("goaway") by { assert LAPSES[3] == "goaway"; }
    var b := Step(a, SessionEnds(lapse));
    assert b.chain.Waiting?;
    var c := Step(Step(b, WaitOver), MintFails(f));
    assert c.stopped;
    var es := [MuteSet(true), WaitOver, MuteSet(false), Started, SessionEnds(lapse), WaitOver, MintFails(f)];
    Unroll(s, es);
  }

  lemma Unroll(s: State, es: seq<Event>)
    requires |es| == 7
    ensures Run(s, es) == Step(Step(Step(Step(Step(Step(Step(s, es[0]), es[1]), es[2]), es[3]), es[4]), es[5]), es[6])
  {
    var s1 := Step(s, es[0]);
    var s2 := Step(s1, es[1]);
    var s3 := Step(s2, es[2]);
    var s4 := Step(s3, es[3]);
    assert Run(s, es) == Run(s1, es[1..]);
    assert Run(s1, es[1..]) == Run(s2, es[2..]) by { assert es[1..][1..] == es[2..]; }
    assert Run(s2, es[2..]) == Run(s3, es[3..]) by { assert es[2..][1..] == es[3..]; }
    assert Run(s3, es[3..]) == Run(s4, es[4..]) by { assert es[3..][1..] == es[4..]; }
    var s5 := Step(s4, es[4]);
    assert Run(s4, es[4..]) == Run(s5, es[5..]) by { assert es[4..][1..] == es[5..]; }
    var s6 := Step(s5, es[5]);
    assert Run(s5, es[5..]) == Run(s6, es[6..]) by { assert es[5..][1..] == es[6..]; }
    assert Run(s6, es[6..]) == Run(Step(s6, es[6]), es[7..]) by { assert es[6..][1..] == es[7..]; }
    assert es[7..] == [];
  }
}
