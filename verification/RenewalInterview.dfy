/** The interview object's side of the renewal chain, each method proved to take the step of `Renewal`. */
module RenewalInterview {
  import opened Renewal

  class Interview {
    var stopped: bool
    var muted: bool
    var sessionOpen: bool
    var renewals: nat
    var renewRetries: nat
    var quotaHits: nat
    var audioRejections: nat
    var renewing: bool
    var chain: Chain
    var page: seq<Note>
    ghost var tally: Tally

    ghost function View(): State
      reads this
    {
      State(stopped, muted, sessionOpen, renewals, renewRetries, quotaHits, audioRejections, chain, page, tally)
    }

    /** The flag the code keeps says that a backoff or a replacement is outstanding. */
    ghost predicate Valid()
      reads this
    {
      renewing == (chain != Quiet)
    }

    constructor ()
      ensures Valid() && View() == Initial()
    {
      stopped, muted, sessionOpen, renewing := false, false, false, false;
      renewals, renewRetries, quotaHits, audioRejections := 0, 0, 0, 0;
      chain, page, tally := Quiet, [], Tally(0, 0, 0, 0);
    }

    method AttemptRenewal(l: Lapse)
      requires renewing
      modifies this
      ensures Valid() && View() == Attempt(old(View()), l)
    {
      var waitMs := RenewWaitMs(l, renewRetries);
      if waitMs == 0 {
        tally := tally.(mints := tally.mints + 1, attempts := tally.attempts + 1);
        chain := Minting(l);
      } else {
        tally := tally.(waitedMs := tally.waitedMs + waitMs);
        chain := Waiting(l);
      }
    }

    /** Renew this lapse. */
    method BeginRenewal(e: End)
      requires Valid() && chain == Quiet
      modifies this
      ensures Valid() && View() == Renew(old(View()), e)
    {
      renewals := renewals + 1;
      page := page + [Renewing(renewals, e.reason)];
      renewing := true;
      tally := Tally(tally.mints, 0, 0, renewRetries);
      var settleMs := if e.reason == "live_socket_error" then SOCKET_SETTLE_MS else 0;
      AttemptRenewal(Lapse(QuotaWaitMs(quotaHits), e.rejected, settleMs));
    }

    /** The consecutive quota refusals; true when there were too many. */
    method CountQuota(e: End) returns (over: bool)
      requires Valid()
      modifies this`quotaHits, this`page
      ensures Valid() && View() == Count(old(View()), e) && over == (e.quota && quotaHits > MAX_QUOTA_RETRIES)
    {
      quotaHits := if e.quota then quotaHits + 1 else 0;
      if e.quota { page := page + [QuotaExhausted(quotaHits, QuotaWaitMs(quotaHits))]; }
      over := e.quota && quotaHits > MAX_QUOTA_RETRIES;
    }

    method SessionEnded(e: End)
      requires Valid()
      modifies this
      ensures Valid() && View() == OnEnded(old(View()), e)
    {
      sessionOpen := false;
      if renewing { return; }
      var over := CountQuota(e);
      if over {
        EndLivePath("quota_exhausted");
        return;
      }
      audioRejections := if e.rejected then audioRejections + 1 else 0;
      RenewUnlessOver(e);
    }

    method EndLivePath(reason: string)
      requires Valid()
      modifies this`stopped, this`page
      ensures Valid() && View() == Finish(old(View()), reason)
    {
      stopped := true;
      page := page + [Ended(reason)];
    }

    method RenewUnlessOver(e: End)
      requires Valid() && chain == Quiet
      modifies this
      ensures Valid() && View() == RenewOrEnd(old(View()), e)
    {
      if e.rejected && audioRejections >= MAX_AUDIO_REJECTIONS {
        EndLivePath("audio_rejected");
        return;
      }
      if IsRenewable(e.reason) && !stopped && !muted && e.elapsedMs < MAX_INTERVIEW_MS && renewals < MAX_RENEWALS {
        BeginRenewal(e);
        return;
      }
      if !muted { stopped := true; }
      page := page + [Ended(e.reason)];
    }

    /** The backoff is over; the interview may have ended while it lasted. */
    method BackoffOver()
      requires Valid()
      modifies this
      ensures Valid() && View() == OnWaitOver(old(View()))
    {
      if !chain.Waiting? { return; }
      if stopped || muted {
        renewing := false;
        chain := Quiet;
        return;
      }
      tally := tally.(mints := tally.mints + 1, attempts := tally.attempts + 1);
      chain := Minting(chain.lapse);
    }

    method RenewalOk()
      requires Valid()
      modifies this
      ensures Valid() && View() == OnMinted(old(View()))
    {
      if !chain.Minting? { return; }
      sessionOpen := true;
      renewing := false;
      chain := Quiet;
      renewRetries := 0;
      page := page + [Renewed(renewals)];
    }

    /** A transport failure is tried again while tries are left; anything else ends the live path. */
    method RenewalFailed(e: Failure)
      requires Valid()
      modifies this
      ensures Valid() && View() == OnMintFailed(old(View()), e)
    {
      if !chain.Minting? { return; }
      var l := chain.lapse;
      if IsTransient(e) && !stopped && !muted && renewRetries < MAX_RENEW_RETRIES {
        renewRetries := renewRetries + 1;
        page := page + [Renewing(renewals, "reconnecting")];
        AttemptRenewal(l);
        return;
      }
      renewing := false;
      chain := Quiet;
      stopped := true;
      page := page + [Ended("renew_failed")];
    }

    method Deliver(e: Event)
      requires Valid()
      modifies this
      ensures Valid() && View() == Step(old(View()), e)
    {
      match e {
        case Started => sessionOpen := true;
        case SessionEnds(end) => if sessionOpen { SessionEnded(end); }
        case WaitOver => BackoffOver();
        case Minted => RenewalOk();
        case MintFails(f) => RenewalFailed(f);
        case MuteSet(m) => muted := m;
        case StopCalled(end) =>
          stopped := true;
          if sessionOpen { SessionEnded(end); }
      }
    }
  }

  /** A whole interview: its renewals stay within their bounds. */
  method Conduct(es: seq<Event>) returns (i: Interview)
    ensures fresh(i) && i.Valid() && i.View() == Run(Initial(), es)
    ensures i.renewals <= 40 && i.tally.mints <= 280
  {
    i := new Interview();
    RunIsBounded(Initial(), es);
    assert es[0..] == es;
    for k := 0 to |es|
      invariant fresh(i) && i.Valid() && Run(i.View(), es[k..]) == Run(Initial(), es)
    {
      assert es[k..][0] == es[k] && es[k..][1..] == es[k + 1..];
      i.Deliver(es[k]);
    }
    assert es[|es|..] == [];
  }
}
