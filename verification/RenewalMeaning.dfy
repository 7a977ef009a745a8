/**
 The renewal chain in the data: which ends are bridged, how long the first wait is, which failures are tried
 again, and what a stop leaves.
 */
module RenewalMeaning {
  import opened Numbers
  import opened Renewal

  /** A close by the server, whatever its code, or one of seven other lapses. */
  predicate Lapses(reason: string) {
    || "closed:" <= reason
    || reason == "max_duration" || reason == "socket_closed" || reason == "error" || reason == "goaway"
    || reason == "live_suspended" || reason == "renew_silent_retry" || reason == "live_socket_error"
  }

  /** The live path is over: a fifth refusal for quota in a row, or a third of the codec. */
  predicate PathIsOver(s: State, e: End) {
    (e.quota && s.quotaHits >= 4) || (e.rejected && s.rejections >= 2)
  }

  /** The end is bridged: a lapse, of an interview that goes on and is under three hours and forty renewals. */
  predicate Bridged(s: State, e: End) {
    !PathIsOver(s, e) && Lapses(e.reason) && !s.stopped && !s.muted && e.elapsedMs < 3 * 60 * 60 * 1000 && s.renewals < 40
  }

  lemma RecoversExactly(s: State, e: End)
    ensures Recovers(s, e) <==> Bridged(s, e)
  {
    RenewableExactly(e.reason);
    if "closed:" <= e.reason { assert e.reason[..7] == "closed:"; }
  }

  /** What an end of a session comes to: what is counted, and whether the interview is over. */
  lemma EndIsCounted(s: State, e: End)
    requires s.chain == Quiet
    ensures var n := OnEnded(s, e);
            && !n.open && n.muted == s.muted
            && n.quotaHits == (if e.quota then s.quotaHits + 1 else 0)
            && (!(e.quota && s.quotaHits >= 4) ==> n.rejections == if e.rejected then s.rejections + 1 else 0)
            && (n.stopped <==> s.stopped || PathIsOver(s, e) || (!Bridged(s, e) && !s.muted))
            && (n.chain != Quiet <==> Bridged(s, e))
  {
    RecoversExactly(s, e);
    if Bridged(s, e) { LapseBegins(s, e); } else { LapseEnds(s, e); }
  }

  // ---------- Waits ----------

  /** A quota refusal is waited out for fifteen seconds, then twice as long each time, two minutes at most. */
  lemma QuotaWaitDoubles(hits: nat)
    ensures QuotaWaitMs(0) == 0 && QuotaWaitMs(1) == 15000
    ensures hits >= 1 ==> QuotaWaitMs(hits + 1) == Min(120000, 2 * QuotaWaitMs(hits))
  {
  }

  /** A retry is waited out for four seconds, then twice as long each time, twenty seconds at most. */
  lemma RetryWaitDoubles(retries: nat)
    ensures RetryWaitMs(0) == 0 && RetryWaitMs(1) == 4000
    ensures retries >= 1 ==> RetryWaitMs(retries + 1) == Min(20000, 2 * RetryWaitMs(retries))
  {
  }

  /** The longest of what the end itself asks for and of what the streak does. */
  function FirstWaitMs(s: State, e: End): nat {
    Max(if e.quota then QuotaWaitMs(s.quotaHits + 1) else 0,
        Max(if e.rejected || e.reason == "live_socket_error" then 1500 else 0, RetryWaitMs(s.retries)))
  }

  /** A bridge is begun after exactly that wait, and at once where there is none. */
  lemma FirstWaitExactly(s: State, e: End)
    requires s.chain == Quiet && Bridged(s, e)
    ensures var n, w := OnEnded(s, e), FirstWaitMs(s, e);
            && (n.chain.Minting? <==> w == 0) && (n.chain.Waiting? <==> w > 0)
            && n.tally.waitedMs == w && n.retries == s.retries
            && (e.quota <==> n.chain.lapse.quotaMs > 0)
  {
    RecoversExactly(s, e);
    QuotaWaitIsSome(s.quotaHits);
  }

  lemma QuotaWaitIsSome(hits: nat)
    ensures QuotaWaitMs(hits + 1) > 0
  {
    Pow2IsSome(hits);
  }

  lemma {:induction false} Pow2IsSome(n: nat)
    ensures Pow2(n) > 0
  {
    if n > 0 { Pow2IsSome(n - 1); }
  }

  // ---------- Failures ----------

  /** Not a refusal: none of eight codes, and no status from 400 to 499. */
  predicate ByTheNetwork(f: Failure) {
    && f.code != "too_many_live_sessions" && f.code != "live_not_configured" && f.code != "live_free_tier_blocked"
    && f.code != "over_budget" && f.code != "budget_exceeded" && f.code != "invalid_input" && f.code != "forbidden" && f.code != "unauthorized"
    && (f.status < 400 || f.status > 499)
  }

  lemma TransientExactly(f: Failure)
    ensures IsTransient(f) <==> ByTheNetwork(f)
  {
    assert REFUSALS[0] == "too_many_live_sessions" && REFUSALS[1] == "live_not_configured";
    assert REFUSALS[2] == "live_free_tier_blocked" && REFUSALS[3] == "over_budget" && REFUSALS[4] == "budget_exceeded";
    assert REFUSALS[5] == "invalid_input" && REFUSALS[6] == "forbidden" && REFUSALS[7] == "unauthorized";
  }

  /** A failure by the network is tried again, six times in a row at most, while the interview goes on; any other ends it. */
  lemma FailureExactly(s: State, f: Failure)
    requires s.chain.Minting?
    ensures var n := Step(s, MintFails(f));
            if ByTheNetwork(f) && !s.stopped && !s.muted && s.retries < 6
            then n.chain == Waiting(s.chain.lapse) && n.retries == s.retries + 1 && !n.stopped
                   && n.page == s.page + [Renewing(s.renewals, "reconnecting")]
                   && n.tally.waitedMs == s.tally.waitedMs + Max(RetryWaitMs(s.retries + 1), RenewWaitMs(s.chain.lapse, 0))
            else n.chain == Quiet && n.stopped && n.retries == s.retries && n.page == s.page + [Ended("renew_failed")]
  {
    TransientExactly(f);
    RetryWaits();
  }

  // ---------- A stop ----------

  /** A stop closes the session, and of the one that was open the page hears the end, unless a renewal is in flight. */
  lemma StopExactly(s: State, e: End)
    ensures var n := Step(s, StopCalled(e));
            && n.stopped && !n.open && n.chain == s.chain && n.renewals == s.renewals
            && n.page == s.page + if s.open && s.chain == Quiet then QuotaWord(s, e) + [Ended(EndingOf(s, e))] else []
  {
    var t := s.(stopped := true);
    if s.open && s.chain == Quiet {
      LapseEnds(t, e);
      assert s.page + (QuotaWord(s, e) + [Ended(EndingOf(s, e))]) == (s.page + QuotaWord(s, e)) + [Ended(EndingOf(s, e))];
    }
  }
}
