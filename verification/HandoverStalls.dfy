/**
 The interviewee's turn that is not answered. When a connection waits for an answer, exactly, and since when; and
 that a handover does not wait on it longer than it may, counted from the words themselves.
 */
module HandoverStalls {
  import opened Handover
  import opened LiveTypes
  import opened Numbers
  import opened Options

  // ---------- Who waits for what ----------

  /** What ends the wait for an answer: a frame of the model's, or a resume. */
  predicate Answers(e: Event) {
    e.ModelFrame? || e == SetMuted(false)
  }

  /** The state in which the `i`-th event of the run is taken. */
  function StateAt(s: State, es: seq<Timed>, i: nat): State
    requires i < |es|
  {
    var before := Run(s, es[..i]);
    AdvanceTo(before, before.now + es[i].after)
  }

  /** The `i`-th event is words of the interviewee's, on a live connection. */
  predicate Words(s: State, es: seq<Timed>, i: int) {
    0 <= i < |es| && es[i].event.UserText? && StateAt(s, es, i).conn.open
  }

  /** Those words are the first since the last answer, and there has been none since. */
  ghost predicate FirstUnanswered(s: State, es: seq<Timed>, i: int) {
    && Words(s, es, i)
    && (forall k | i < k < |es| :: !Answers(es[k].event))
    && (forall j | 0 <= j < i && Words(s, es, j) :: AnsweredBetween(es, j, i))
  }

  ghost predicate AnsweredBetween(es: seq<Timed>, j: int, i: int)
    requires 0 <= j <= i <= |es|
  {
    exists k :: j < k < i && Answers(es[k].event)
  }

  lemma {:induction false} RunSnoc(s: State, es: seq<Timed>, e: Timed)
    ensures Run(s, es + [e]) == Step(Run(s, es), e)
    decreases |es|
  {
    if es == [] {
      assert [] + [e] == [e] && [e][1..] == [];
      assert Run(Step(s, e), []) == Step(s, e);
    } else {
      assert (es + [e])[0] == es[0] && (es + [e])[1..] == es[1..] + [e];
      RunSnoc(Step(s, es[0]), es[1..], e);
    }
  }

  lemma {:induction false} AdvanceKeepsWait(s: State, t: int)
    ensures var n := AdvanceTo(s, t);
            n.conn.awaiting == s.conn.awaiting && n.conn.userTurnAt == s.conn.userTurnAt && n.now == t
    decreases if s.poll.Some? && s.poll.value <= t then t - s.poll.value + 1 else 0
  {
    if s.poll.Some? && s.poll.value <= t {
      AdvanceKeepsWait(Fire(s), t);
    }
  }

  lemma EventWaits(s: State, e: Event)
    requires !e.Opened?
    ensures var begins := e.UserText? && s.conn.open && !s.conn.awaiting;
            var n := Apply(s, e);
            && (n.conn.awaiting <==> begins || (s.conn.awaiting && !Answers(e)))
            && n.conn.userTurnAt == (if begins then Some(s.now) else s.conn.userTurnAt)
  {
  }

  lemma PrefixesAgree(s: State, init: seq<Timed>, e: Timed, i: int)
    requires 0 <= i < |init|
    ensures Words(s, init + [e], i) <==> Words(s, init, i)
    ensures StateAt(s, init + [e], i) == StateAt(s, init, i)
  {
    assert (init + [e])[..i] == init[..i] && (init + [e])[i] == init[i];
  }

  /** The first unanswered words of a run, by those of the run without its last event. */
  lemma UnansweredSoFar(s: State, init: seq<Timed>, e: Timed, i: int)
    requires 0 <= i <= |init|
    ensures FirstUnanswered(s, init + [e], i) <==>
            if i < |init| then FirstUnanswered(s, init, i) && !Answers(e.event)
            else Words(s, init + [e], i) && forall j | 0 <= j < |init| && Words(s, init, j) :: AnsweredBetween(init, j, |init|)
  {
    var es := init + [e];
    forall j | 0 <= j < |init| ensures Words(s, es, j) <==> Words(s, init, j) { PrefixesAgree(s, init, e, j); }
    forall j, k | 0 <= j <= k <= |init| ensures AnsweredBetween(es, j, k) <==> AnsweredBetween(init, j, k) {
      assert forall x | 0 <= x < |init| :: es[x] == init[x];
    }
    assert es[|init|] == e && forall x | 0 <= x < |init| :: es[x] == init[x];
  }

  /** There are unanswered words exactly if there are words that no answer follows. */
  lemma {:induction false} UnansweredAreThere(s: State, es: seq<Timed>)
    ensures (exists i :: FirstUnanswered(s, es, i)) <==> exists j :: 0 <= j < |es| && Words(s, es, j) && !AnsweredBetween(es, j, |es|)
  {
    if es != [] {
      var init, e := es[..|es| - 1], es[|es| - 1];
      assert es == init + [e];
      UnansweredAreThere(s, init);
      if i :| FirstUnanswered(s, es, i) {
        assert !AnsweredBetween(es, i, |es|);
      }
      if j :| 0 <= j < |es| && Words(s, es, j) && !AnsweredBetween(es, j, |es|) {
        if j < |init| {
          PrefixesAgree(s, init, e, j);
          assert !Answers(es[|init|].event);
          assert !AnsweredBetween(init, j, |init|) by {
            assert forall k | j < k < |init| :: init[k] == es[k];
          }
          var i :| FirstUnanswered(s, init, i);
          UnansweredSoFar(s, init, e, i);
        } else if exists i :: FirstUnanswered(s, init, i) {
          var i :| FirstUnanswered(s, init, i);
          UnansweredSoFar(s, init, e, i);
        } else {
          UnansweredSoFar(s, init, e, |init|);
        }
      }
    }
  }

  lemma StepWaits(s: State, e: Timed)
    requires !e.event.Opened?
    ensures var at := AdvanceTo(s, s.now + e.after);
            var begins := e.event.UserText? && at.conn.open && !s.conn.awaiting;
            && (Step(s, e).conn.awaiting <==> begins || (s.conn.awaiting && !Answers(e.event)))
            && Step(s, e).conn.userTurnAt == (if begins then Some(s.now + e.after) else s.conn.userTurnAt)
            && at.now == s.now + e.after
  {
    AdvanceKeepsWait(s, s.now + e.after);
    EventWaits(AdvanceTo(s, s.now + e.after), e.event);
  }

  /**
   The wait for an answer, exactly. In every run on one connection it is on exactly if words of the interviewee's have come
   that no frame of the model's and no resume has followed; and it counts from the first of them since the last of these.
   */
  lemma {:induction false} WaitsExactly(s: State, es: seq<Timed>)
    requires !s.conn.awaiting && forall i | 0 <= i < |es| :: !es[i].event.Opened?
    ensures Run(s, es).conn.awaiting <==> exists i :: FirstUnanswered(s, es, i)
    ensures forall i | FirstUnanswered(s, es, i) :: Run(s, es).conn.userTurnAt == Some(StateAt(s, es, i).now)
  {
    if es != [] {
      var init, e := es[..|es| - 1], es[|es| - 1];
      assert es == init + [e] && es[..|init|] == init;
      WaitsExactly(s, init);
      RunSnoc(s, init, e);
      StepWaits(Run(s, init), e);
      LastIs(s, init, e);
      LastDecides(s, init, e, Run(s, init).conn.awaiting, Run(s, init).conn.userTurnAt, Run(s, es).conn.awaiting, Run(s, es).conn.userTurnAt);
    }
  }

  /** One more event, given the law for what came before it: whether there was a wait, since when, and both afterwards. */
  lemma LastDecides(s: State, init: seq<Timed>, e: Timed, was: bool, since: Option<int>, now: bool, sinceNow: Option<int>)
    requires was <==> exists i :: FirstUnanswered(s, init, i)
    requires forall i | FirstUnanswered(s, init, i) :: since == Some(StateAt(s, init, i).now)
    requires var begins := Words(s, init + [e], |init|) && !was;
             && (now <==> begins || (was && !Answers(e.event)))
             && sinceNow == (if begins then Some(StateAt(s, init + [e], |init|).now) else since)
    ensures now <==> exists i :: FirstUnanswered(s, init + [e], i)
    ensures forall i | FirstUnanswered(s, init + [e], i) :: sinceNow == Some(StateAt(s, init + [e], i).now)
  {
    NewUnanswered(s, init, e);
    ExistsUnanswered(s, init, e);
    assert Words(s, init + [e], |init|) ==> !Answers(e.event) by { LastIs(s, init, e); }
    forall i | FirstUnanswered(s, init + [e], i) ensures sinceNow == Some(StateAt(s, init + [e], i).now) {
      if i < |init| { OldUnanswered(s, init, e, i); }
    }
  }

  lemma LastIs(s: State, init: seq<Timed>, e: Timed)
    ensures Words(s, init + [e], |init|) <==> e.event.UserText? && StateAt(s, init + [e], |init|).conn.open
    ensures StateAt(s, init + [e], |init|) == AdvanceTo(Run(s, init), Run(s, init).now + e.after)
  {
    assert (init + [e])[..|init|] == init && (init + [e])[|init|] == e;
  }

  lemma NewUnanswered(s: State, init: seq<Timed>, e: Timed)
    ensures FirstUnanswered(s, init + [e], |init|) <==> Words(s, init + [e], |init|) && !exists i :: FirstUnanswered(s, init, i)
    ensures Words(s, init + [e], |init|) <==> e.event.UserText? && StateAt(s, init + [e], |init|).conn.open
    ensures StateAt(s, init + [e], |init|) == AdvanceTo(Run(s, init), Run(s, init).now + e.after)
  {
    UnansweredAreThere(s, init);
    UnansweredSoFar(s, init, e, |init|);
    LastIs(s, init, e);
  }

  lemma OldUnanswered(s: State, init: seq<Timed>, e: Timed, i: int)
    requires 0 <= i < |init|
    ensures FirstUnanswered(s, init + [e], i) <==> FirstUnanswered(s, init, i) && !Answers(e.event)
    ensures StateAt(s, init + [e], i) == StateAt(s, init, i)
  {
    UnansweredSoFar(s, init, e, i);
    PrefixesAgree(s, init, e, i);
  }

  lemma ExistsUnanswered(s: State, init: seq<Timed>, e: Timed)
    ensures (exists i :: FirstUnanswered(s, init + [e], i)) <==>
              Words(s, init + [e], |init|) || ((exists i :: FirstUnanswered(s, init, i)) && !Answers(e.event))
  {
    NewUnanswered(s, init, e);
    if i :| FirstUnanswered(s, init + [e], i) {
      if i < |init| { OldUnanswered(s, init, e, i); }
    }
    if i :| FirstUnanswered(s, init, i) {
      OldUnanswered(s, init, e, i);
    }
  }

  // ---------- What the wait costs ----------

  /** Nothing is overdue: the poll, if it is armed, is at most one period away. */
  predicate PollIsNear(s: State) {
    s.poll.Some? ==> s.now < s.poll.value <= s.now + POLL_MS
  }

  /** Nobody's words are waiting, and nobody speaks. */
  predicate NobodyWaits(s: State) {
    Running(s) && !s.conn.awaiting && !s.conn.mic.inUtterance
  }

  /** While it waits in silence a pending handover is pending, or has been started, once. */
  lemma {:induction false} PendingIsHandedOver(s: State, es: seq<Timed>)
    requires s.pending && forall i | 0 <= i < |es| :: Silence(es[i].event)
    ensures var r := Run(s, es); if r.pending then r.log == s.log else |r.log| == |s.log| + 1 && r.log[..|s.log|] == s.log
    decreases |es|
  {
    if es != [] {
      var n := AdvanceTo(s, s.now + es[0].after);
      AdvanceHandsOver(s, s.now + es[0].after);
      var m := Step(s, es[0]);
      assert m == Apply(n, es[0].event);
      SilenceHandsOver(n, es[0].event);
      if m.pending {
        PendingIsHandedOver(m, es[1..]);
      } else {
        NoticeFree(m, es[1..]);
      }
    }
  }

  ghost predicate AtMostOne(s: State, r: State) {
    if r.pending then s.pending && r.log == s.log
    else if s.pending then |r.log| == |s.log| + 1 && r.log[..|s.log|] == s.log
    else r.log == s.log
  }

  lemma {:induction false} AdvanceHandsOver(s: State, t: int)
    requires s.pending
    ensures AtMostOne(s, AdvanceTo(s, t)) || (s.stopped && AdvanceTo(s, t).log == s.log && AdvanceTo(s, t).pending)
    decreases if s.poll.Some? && s.poll.value <= t then t - s.poll.value + 1 else 0
  {
    if s.poll.Some? && s.poll.value <= t {
      if Fire(s).pending { AdvanceHandsOver(Fire(s), t); } else { AdvanceWithoutNotice(Fire(s), t); }
    }
  }

  lemma SilenceHandsOver(s: State, e: Event)
    requires Silence(e)
    ensures AtMostOne(s, Apply(s, e))
  {
  }

  /**
   From the words on. With a handover pending, five seconds and one poll after the interviewee's words it has been started,
   if nothing comes but silence, whatever the model is said to be doing.
   */
  lemma UnansweredWordsAreLeft(s: State, es: seq<Timed>)
    requires s.pending && NobodyWaits(s) && s.poll.Some? && PollIsNear(s)
    requires forall i | 0 <= i < |es| :: Silence(es[i].event)
    ensures var r := Run(Apply(s, UserText), es);
            r.now >= s.now + STALL_MS + POLL_MS ==> !r.pending && |r.log| == |s.log| + 1
  {
    var n := Apply(s, UserText);
    assert StillWaiting(n, s.now, s.now, STALL_MS);
    StalledConnectionIsLeft(n, es, s.now, s.now, STALL_MS);
    PendingIsHandedOver(n, es);
  }

  /** The words at `u` wait for their answer, and nothing is pending. */
  ghost predicate WordsWait(s: State, u: int) {
    !s.pending && Running(s) && s.conn.awaiting && s.conn.userTurnAt == Some(u) && !s.conn.mic.inUtterance && PollIsNear(s)
  }

  lemma {:induction false} AdvanceKeepsWords(s: State, u: int, t: int)
    requires WordsWait(s, u) && s.now <= t
    ensures WordsWait(AdvanceTo(s, t), u) && AdvanceTo(s, t).now == t && AdvanceTo(s, t).log == s.log
    decreases if s.poll.Some? && s.poll.value <= t then t - s.poll.value + 1 else 0
  {
    if s.poll.Some? && s.poll.value <= t {
      AdvanceKeepsWords(Fire(s), u, t);
    }
  }

  lemma {:induction false} SilenceKeepsWords(s: State, es: seq<Timed>, u: int)
    requires WordsWait(s, u) && forall i | 0 <= i < |es| :: Silence(es[i].event)
    ensures WordsWait(Run(s, es), u) && Run(s, es).log == s.log
    decreases |es|
  {
    if es != [] {
      AdvanceKeepsWords(s, u, s.now + es[0].after);
      SilenceKeepsWords(Step(s, es[0]), es[1..], u);
    }
  }

  /**
   And if the server's notice lands on those words, one second after them and one poll is enough, or one poll after the
   notice if that is later.
   */
  lemma ConfirmedStallIsLeft(s: State, quiet: seq<Timed>, timeLeft: Option<nat>, es: seq<Timed>)
    requires !s.pending && NobodyWaits(s) && PollIsNear(s)
    requires (forall i | 0 <= i < |quiet| :: Silence(quiet[i].event)) && forall i | 0 <= i < |es| :: Silence(es[i].event)
    ensures var told := Run(Apply(s, UserText), quiet);
            var r := Run(Apply(told, GoAway(timeLeft)), es);
            r.now >= Max(s.now + STALL_CONFIRMED_MS, told.now) + POLL_MS ==> !r.pending && |r.log| == |s.log| + 1
  {
    var u := s.now;
    SilenceKeepsWords(Apply(s, UserText), quiet, u);
    var told := Run(Apply(s, UserText), quiet);
    var n := Apply(told, GoAway(timeLeft));
    DecisionEndsStall(Announced(told, timeLeft), u, told.now, STALL_CONFIRMED_MS);
    StalledConnectionIsLeft(n, es, u, told.now, STALL_CONFIRMED_MS);
    if n.pending {
      PendingIsHandedOver(n, es);
    } else {
      NoticeFree(n, es);
    }
  }
}
