/**
 Recomputing every round of an engagement: in numeric order, each round against the last round that
 was really held, whatever the order in which the rounds are stored.
 */
module ScoringRounds {
  import opened Scoring
  import opened ScoringMonotone
  import opened Options

  datatype Round = Round(number: Option<real>, interviews: seq<Interview>, scores: Option<Scores>)

  /** Numbered rounds by number, then the unnumbered ones. */
  predicate Before(a: Option<real>, b: Option<real>) {
    a.Some? && (b.None? || a.value < b.value)
  }

  /** Put a round after everything that does not come strictly later. */
  function Insert(sorted: seq<Round>, r: Round): seq<Round> {
    if sorted == [] then [r]
    else if Before(r.number, sorted[|sorted| - 1].number) then Insert(sorted[..|sorted| - 1], r) + [sorted[|sorted| - 1]]
    else sorted + [r]
  }

  function SortRounds(rounds: seq<Round>): seq<Round> {
    if rounds == [] then [] else Insert(SortRounds(rounds[..|rounds| - 1]), rounds[|rounds| - 1])
  }

  function LowestRoundNumber(rounds: seq<Round>): Option<real> {
    if rounds == [] then None
    else
      var lo := LowestRoundNumber(rounds[..|rounds| - 1]);
      var n := rounds[|rounds| - 1].number;
      if n.None? then lo else if lo.None? || n.value < lo.value then n else lo
  }

  function Lowest(rounds: seq<Round>): real {
    var lo := LowestRoundNumber(rounds);
    if lo.None? then 1.0 else lo.value
  }

  predicate IsRefreshRound(r: Round, lo: real) {
    r.number.Some? && r.number.value > lo && exists iv :: iv in r.interviews && (iv.isRefresh || iv.coverage.Some?)
  }

  /** The round recomputed against the running scores; a round nobody was interviewed for is left as stored. */
  function Rescored(r: Round, running: Scores, lo: real, rw: RoleWeight): Round {
    if r.interviews == [] then r
    else r.(scores := Some(RoundScores(r.interviews, running, IsRefreshRound(r, lo), rw)))
  }

  function Overlay(running: Scores, r: Round): Scores {
    if r.interviews == [] || r.scores.None? then running else running + r.scores.value
  }

  /** The running scores after the first `n` of the ordered rounds. */
  function Running(ordered: seq<Round>, n: nat, lo: real, rw: RoleWeight): Scores
    requires n <= |ordered|
  {
    if n == 0 then map[]
    else
      var before := Running(ordered, n - 1, lo, rw);
      Overlay(before, Rescored(ordered[n - 1], before, lo, rw))
  }

  function Recomputed(ordered: seq<Round>, lo: real, rw: RoleWeight): seq<Round> {
    seq(|ordered|, i requires 0 <= i < |ordered| => Rescored(ordered[i], Running(ordered, i, lo, rw), lo, rw))
  }

  /** The rounds of an engagement, in order, after a full recomputation. */
  function RecomputeAll(rounds: seq<Round>, rw: RoleWeight): seq<Round> {
    Recomputed(SortRounds(rounds), Lowest(rounds), rw)
  }

  // ---------- Order of storage ----------

  predicate AllNumbered(rounds: seq<Round>) {
    forall r :: r in rounds ==> r.number.Some?
  }

  predicate DistinctNumbers(rounds: seq<Round>) {
    && AllNumbered(rounds)
    && forall i, j | 0 <= i < j < |rounds| :: rounds[i].number != rounds[j].number
  }

  predicate Ascending(rounds: seq<Round>) {
    && AllNumbered(rounds)
    && forall i, j | 0 <= i < j < |rounds| :: rounds[i].number.value < rounds[j].number.value
  }

  lemma {:induction false} InsertKeeps(sorted: seq<Round>, r: Round)
    ensures multiset(Insert(sorted, r)) == multiset(sorted) + multiset{r}
  {
    if sorted != [] {
      var last := sorted[|sorted| - 1];
      assert sorted == sorted[..|sorted| - 1] + [last];
      InsertKeeps(sorted[..|sorted| - 1], r);
    }
  }

  /** Sorting keeps every round. */
  lemma {:induction false} SortKeeps(rounds: seq<Round>)
    ensures multiset(SortRounds(rounds)) == multiset(rounds)
  {
    if rounds != [] {
      var init, last := rounds[..|rounds| - 1], rounds[|rounds| - 1];
      assert multiset(rounds) == multiset(init) + multiset{last} by {
        assert rounds == init + [last];
      }
      SortKeeps(init);
      InsertKeeps(SortRounds(init), last);
    }
  }

  lemma {:induction false} InsertAscends(sorted: seq<Round>, r: Round)
    requires Ascending(sorted) && r.number.Some?
    requires forall x :: x in sorted ==> x.number != r.number
    ensures Ascending(Insert(sorted, r))
  {
    if sorted != [] {
      var last, init := sorted[|sorted| - 1], sorted[..|sorted| - 1];
      assert last in sorted;
      if Before(r.number, last.number) {
        InitAscends(sorted);
        InsertAscends(init, r);
        InsertKeeps(init, r);
        var ins := Insert(init, r);
        forall i | 0 <= i < |ins| ensures ins[i].number.Some? && ins[i].number.value < last.number.value {
          assert ins[i] in multiset(ins);
          if ins[i] != r { LastExceeds(sorted, ins[i]); }
        }
        AppendAscends(ins, last);
      } else {
        forall i | 0 <= i < |sorted| ensures sorted[i].number.value < r.number.value {
          LastIsGreatest(sorted, sorted[i]);
        }
        AppendAscends(sorted, r);
      }
    }
  }

  lemma AppendAscends(rounds: seq<Round>, r: Round)
    requires Ascending(rounds) && r.number.Some? && forall i | 0 <= i < |rounds| :: rounds[i].number.value < r.number.value
    ensures Ascending(rounds + [r])
  {
  }

  lemma LastExceeds(rounds: seq<Round>, r: Round)
    requires Ascending(rounds) && rounds != [] && r in rounds[..|rounds| - 1]
    ensures r.number.value < rounds[|rounds| - 1].number.value
  {
    var i :| 0 <= i < |rounds| - 1 && rounds[..|rounds| - 1][i] == r;
    assert rounds[i] == r;
  }

  lemma {:induction false} SortAscends(rounds: seq<Round>)
    requires DistinctNumbers(rounds)
    ensures Ascending(SortRounds(rounds))
  {
    if rounds != [] {
      var init, last := rounds[..|rounds| - 1], rounds[|rounds| - 1];
      assert last in rounds;
      forall r | r in init ensures r.number.Some? && r.number != last.number {
        var i :| 0 <= i < |init| && init[i] == r;
        assert rounds[i] == r && r in rounds;
      }
      SortAscends(init);
      SortKeeps(init);
      forall x | x in SortRounds(init) ensures x in init {
        assert x in multiset(SortRounds(init));
      }
      InsertAscends(SortRounds(init), last);
    }
  }

  lemma LastIsGreatest(a: seq<Round>, r: Round)
    requires Ascending(a) && r in a
    ensures r.number.value <= a[|a| - 1].number.value
    ensures r.number.value == a[|a| - 1].number.value ==> r == a[|a| - 1]
  {
    var i :| 0 <= i < |a| && a[i] == r;
    if i < |a| - 1 {
      assert a[i].number.value < a[|a| - 1].number.value;
    }
  }

  lemma InitAscends(a: seq<Round>)
    requires Ascending(a) && a != []
    ensures Ascending(a[..|a| - 1])
    ensures multiset(a) == multiset(a[..|a| - 1]) + multiset{a[|a| - 1]}
  {
    var init := a[..|a| - 1];
    assert a == init + [a[|a| - 1]];
    forall r | r in init ensures r in a { }
  }

  lemma SameButLast(c: multiset<Round>, d: multiset<Round>, x: Round)
    requires c + multiset{x} == d + multiset{x}
    ensures c == d
  {
    assert c == (c + multiset{x}) - multiset{x} && d == (d + multiset{x}) - multiset{x};
  }

  lemma SameLast(a: seq<Round>, b: seq<Round>)
    requires Ascending(a) && Ascending(b) && multiset(a) == multiset(b) && a != [] && b != []
    ensures a[|a| - 1] == b[|b| - 1]
  {
    var x, y := a[|a| - 1], b[|b| - 1];
    assert x in multiset(a) && y in multiset(b);
    LastIsGreatest(a, y);
    LastIsGreatest(b, x);
  }

  lemma {:induction false} AscendingIsUnique(a: seq<Round>, b: seq<Round>)
    requires Ascending(a) && Ascending(b) && multiset(a) == multiset(b)
    ensures a == b
  {
    assert |multiset(a)| == |a| && |multiset(b)| == |b|;
    if a != [] {
      var x, y := a[|a| - 1], b[|b| - 1];
      SameLast(a, b);
      InitAscends(a);
      InitAscends(b);
      var c, d := a[..|a| - 1], b[..|b| - 1];
      SameButLast(multiset(c), multiset(d), x);
      AscendingIsUnique(c, d);
      assert a == c + [x] && b == d + [y];
    }
  }

  lemma {:induction false} LowestIsLeast(rounds: seq<Round>)
    ensures LowestRoundNumber(rounds).Some? ==> exists r :: r in rounds && r.number == LowestRoundNumber(rounds)
    ensures forall r :: r in rounds && r.number.Some? ==> LowestRoundNumber(rounds).Some? && LowestRoundNumber(rounds).value <= r.number.value
  {
    if rounds != [] {
      LowestIsLeast(rounds[..|rounds| - 1]);
      var last := rounds[|rounds| - 1];
      assert rounds == rounds[..|rounds| - 1] + [last];
      assert last in rounds;
    }
  }

  lemma LowestOfSame(a: seq<Round>, b: seq<Round>)
    requires multiset(a) == multiset(b)
    ensures Lowest(a) == Lowest(b)
  {
    LowestIsLeast(a);
    LowestIsLeast(b);
    forall r ensures r in a <==> r in b {
      assert r in multiset(a) <==> r in multiset(b);
    }
  }

  /** Full recomputation does not depend on the order in which the rounds are stored. */
  lemma OrderDoesNotMatter(a: seq<Round>, b: seq<Round>, rw: RoleWeight)
    requires multiset(a) == multiset(b) && DistinctNumbers(a) && DistinctNumbers(b)
    ensures RecomputeAll(a, rw) == RecomputeAll(b, rw)
  {
    SortKeeps(a);
    SortKeeps(b);
    SortAscends(a);
    SortAscends(b);
    AscendingIsUnique(SortRounds(a), SortRounds(b));
    LowestOfSame(a, b);
  }

  // ---------- Idempotence ----------

  lemma RescoredSame(r: Round, r': Round, running: Scores, lo: real, rw: RoleWeight)
    requires r' == Rescored(r, running, lo, rw)
    ensures Rescored(r', running, lo, rw) == r'
  {
  }

  /** Rounds `again` that were each recomputed with the scores `ps` running before them. */
  ghost predicate RecomputedAlong(ordered: seq<Round>, again: seq<Round>, ps: seq<Scores>, lo: real, rw: RoleWeight) {
    && Chain(ordered, ps, lo, rw) && |again| == |ordered|
    && forall i {:trigger again[i]} | 0 <= i < |ordered| :: again[i] == Rescored(ordered[i], ps[i], lo, rw)
  }

  lemma OverlaidSame(r: Round, r': Round, running: Scores, after: Scores, lo: real, rw: RoleWeight)
    requires r' == Rescored(r, running, lo, rw) && after == Overlay(running, r')
    ensures Overlay(running, Rescored(r', running, lo, rw)) == after
  {
    RescoredSame(r, r', running, lo, rw);
  }

  /** What runs along the rounds also runs along them once they are recomputed. */
  lemma StillLinked(ordered: seq<Round>, again: seq<Round>, ps: seq<Scores>, i: nat, lo: real, rw: RoleWeight)
    requires RecomputedAlong(ordered, again, ps, lo, rw) && i < |ordered|
    ensures Linked(again, ps, i, lo, rw)
  {
    assert Linked(ordered, ps, i, lo, rw);
    OverlaidSame(ordered[i], again[i], ps[i], ps[i + 1], lo, rw);
  }

  lemma {:induction false} ChainsAgree(ordered: seq<Round>, ps: seq<Scores>, qs: seq<Scores>, n: nat, lo: real, rw: RoleWeight)
    requires Chain(ordered, ps, lo, rw) && Chain(ordered, qs, lo, rw) && n <= |ordered|
    ensures ps[n] == qs[n]
  {
    if n > 0 {
      ChainsAgree(ordered, ps, qs, n - 1, lo, rw);
      assert Linked(ordered, ps, n - 1, lo, rw) && Linked(ordered, qs, n - 1, lo, rw);
    }
  }

  /** Rounds recomputed along `ps` have `ps` running along them. */
  lemma RunsAlong(ordered: seq<Round>, again: seq<Round>, ps: seq<Scores>, i: nat, lo: real, rw: RoleWeight)
    requires RecomputedAlong(ordered, again, ps, lo, rw) && i <= |ordered|
    ensures Chained(again, lo, rw)[i] == ps[i]
  {
    forall k {:trigger Linked(again, ps, k, lo, rw)} | 0 <= k < |ordered| ensures Linked(again, ps, k, lo, rw) {
      StillLinked(ordered, again, ps, k, lo, rw);
    }
    RunningIsChain(again, lo, rw);
    ChainsAgree(again, Chained(again, lo, rw), ps, i, lo, rw);
  }

  lemma RecomputedTwice(ordered: seq<Round>, lo: real, rw: RoleWeight)
    ensures Recomputed(Recomputed(ordered, lo, rw), lo, rw) == Recomputed(ordered, lo, rw)
  {
    RunningIsChain(ordered, lo, rw);
    RecomputedAgain(ordered, Recomputed(ordered, lo, rw), Chained(ordered, lo, rw), lo, rw);
  }

  lemma RecomputedAgain(ordered: seq<Round>, again: seq<Round>, ps: seq<Scores>, lo: real, rw: RoleWeight)
    requires RecomputedAlong(ordered, again, ps, lo, rw)
    ensures Recomputed(again, lo, rw) == again
  {
    forall i | 0 <= i < |ordered| ensures Recomputed(again, lo, rw)[i] == again[i] {
      RunsAlong(ordered, again, ps, i, lo, rw);
      RescoredSame(ordered[i], again[i], ps[i], lo, rw);
    }
  }

  lemma {:induction false} InsertLast(sorted: seq<Round>, r: Round)
    requires forall x :: x in sorted ==> !Before(r.number, x.number)
    ensures Insert(sorted, r) == sorted + [r]
  {
  }

  lemma {:induction false} SortOfAscending(a: seq<Round>)
    requires Ascending(a)
    ensures SortRounds(a) == a
  {
    if a != [] {
      var init, last := a[..|a| - 1], a[|a| - 1];
      assert a == init + [last];
      assert Ascending(init) by { InitAscends(a); }
      SortOfAscending(init);
      assert last in a;
      forall x | x in init ensures !Before(last.number, x.number) {
        LastIsGreatest(a, x);
      }
      InsertLast(init, last);
    }
  }

  lemma {:induction false} SameNumbersSameLowest(a: seq<Round>, b: seq<Round>)
    requires |a| == |b| && forall i | 0 <= i < |a| :: a[i].number == b[i].number
    ensures LowestRoundNumber(a) == LowestRoundNumber(b)
  {
    if a != [] {
      SameNumbersSameLowest(a[..|a| - 1], b[..|b| - 1]);
    }
  }

  lemma RecomputedAscends(ordered: seq<Round>, lo: real, rw: RoleWeight)
    requires Ascending(ordered)
    ensures Ascending(Recomputed(ordered, lo, rw))
  {
    var after := Recomputed(ordered, lo, rw);
    forall i | 0 <= i < |ordered| ensures after[i].number == ordered[i].number && after[i].number.Some? {
      assert ordered[i] in ordered;
    }
  }

  /** A second full recomputation changes nothing. */
  lemma RecomputeIsIdempotent(rounds: seq<Round>, rw: RoleWeight)
    requires DistinctNumbers(rounds)
    ensures RecomputeAll(RecomputeAll(rounds, rw), rw) == RecomputeAll(rounds, rw)
  {
    var ordered, lo := SortRounds(rounds), Lowest(rounds);
    var once := Recomputed(ordered, lo, rw);
    SortAscends(rounds);
    SortKeeps(rounds);
    LowestOfSame(ordered, rounds);
    RecomputedAscends(ordered, lo, rw);
    SortOfAscending(once);
    SameNumbersSameLowest(once, ordered);
    RecomputedTwice(ordered, lo, rw);
  }

  // ---------- Agreement with the round-by-round computation ----------

  /** The scores of the latest earlier round that has them, dimension by dimension: `rounds` newest first. */
  function FirstScores(newest: seq<Round>): Scores {
    if newest == [] then map[]
    else if newest[0].scores.None? then FirstScores(newest[1..])
    else FirstScores(newest[1..]) + newest[0].scores.value
  }

  function Reverse(rs: seq<Round>): seq<Round> {
    if rs == [] then [] else [rs[|rs| - 1]] + Reverse(rs[..|rs| - 1])
  }

  function Earlier(ordered: seq<Round>, n: real): seq<Round> {
    if ordered == [] then []
    else Earlier(ordered[..|ordered| - 1], n) +
         (var r := ordered[|ordered| - 1]; if r.number.Some? && r.number.value < n then [r] else [])
  }

  /** The prior scores of the round numbered `n`: earlier rounds, newest first. */
  function PriorScoresFor(rounds: seq<Round>, n: real): Scores {
    FirstScores(Reverse(Earlier(SortRounds(rounds), n)))
  }

  /** Rounds nobody was interviewed for hold no scores. */
  ghost predicate PlannedAreEmpty(rounds: seq<Round>) {
    forall r :: r in rounds && r.interviews == [] ==> r.scores.None?
  }

  lemma {:induction false} EarlierIsPrefix(ordered: seq<Round>, i: nat)
    requires Ascending(ordered) && i < |ordered|
    ensures ordered[i].number.Some? && Earlier(ordered, ordered[i].number.value) == ordered[..i]
  {
    assert ordered[i] in ordered;
    EarlierUpTo(ordered, |ordered|, i);
    assert ordered[..|ordered|] == ordered;
  }

  lemma {:induction false} EarlierUpTo(ordered: seq<Round>, k: nat, i: nat)
    requires Ascending(ordered) && i < |ordered| && k <= |ordered| && ordered[i].number.Some?
    ensures Earlier(ordered[..k], ordered[i].number.value) == if k <= i then ordered[..k] else ordered[..i]
  {
    if k != 0 {
      assert ordered[..k][..k - 1] == ordered[..k - 1];
      EarlierUpTo(ordered, k - 1, i);
      assert ordered[k - 1] in ordered;
      if k - 1 < i {
        assert ordered[k - 1].number.value < ordered[i].number.value;
        assert ordered[..k] == ordered[..k - 1] + [ordered[k - 1]];
      } else if i < k - 1 {
        assert ordered[i].number.value < ordered[k - 1].number.value;
      }
    }
  }

  /** Reading the recomputed rounds newest first gives the running scores. */
  lemma {:induction false} RunningIsPrior(ordered: seq<Round>, i: nat, lo: real, rw: RoleWeight)
    requires i <= |ordered| && PlannedAreEmpty(ordered)
    ensures FirstScores(Reverse(Recomputed(ordered, lo, rw)[..i])) == Running(ordered, i, lo, rw)
  {
    var after := Recomputed(ordered, lo, rw);
    if i != 0 {
      RunningIsPrior(ordered, i - 1, lo, rw);
      var r := after[i - 1];
      assert after[..i][..i - 1] == after[..i - 1];
      var rev := Reverse(after[..i]);
      assert rev == [r] + Reverse(after[..i - 1]);
      assert rev[1..] == Reverse(after[..i - 1]);
      assert ordered[i - 1] in ordered;
    }
  }

  lemma PriorOfRecomputed(ordered: seq<Round>, lo: real, rw: RoleWeight, i: nat)
    requires Ascending(ordered) && PlannedAreEmpty(ordered) && i < |ordered|
    ensures ordered[i].number.Some?
    ensures PriorScoresFor(Recomputed(ordered, lo, rw), ordered[i].number.value) == Running(ordered, i, lo, rw)
  {
    var after := Recomputed(ordered, lo, rw);
    RecomputedAscends(ordered, lo, rw);
    SortOfAscending(after);
    EarlierIsPrefix(after, i);
    RunningIsPrior(ordered, i, lo, rw);
  }

  lemma RecomputedKeeps(ordered: seq<Round>, lo: real, rw: RoleWeight)
    ensures var after := Recomputed(ordered, lo, rw);
            |after| == |ordered| &&
            forall i | 0 <= i < |after| :: after[i].number == ordered[i].number && after[i].interviews == ordered[i].interviews
  {
  }

  lemma RescoredAgrees(ordered: seq<Round>, lo: real, rw: RoleWeight, i: nat)
    requires Ascending(ordered) && PlannedAreEmpty(ordered) && i < |ordered|
    ensures var after := Recomputed(ordered, lo, rw);
            var r := after[i];
            r.number.Some? &&
            (r.interviews != [] ==>
              r.scores == Some(RoundScores(r.interviews, PriorScoresFor(after, r.number.value), IsRefreshRound(r, lo), rw)))
  {
    PriorOfRecomputed(ordered, lo, rw, i);
    var r := Recomputed(ordered, lo, rw)[i];
    assert r == Rescored(ordered[i], Running(ordered, i, lo, rw), lo, rw);
  }

  lemma SortedFacts(rounds: seq<Round>)
    requires DistinctNumbers(rounds) && PlannedAreEmpty(rounds)
    ensures var ordered := SortRounds(rounds); Ascending(ordered) && PlannedAreEmpty(ordered) && Lowest(ordered) == Lowest(rounds)
  {
    var ordered := SortRounds(rounds);
    SortAscends(rounds);
    SortKeeps(rounds);
    LowestOfSame(ordered, rounds);
    forall r | r in ordered && r.interviews == [] ensures r.scores.None? {
      assert r in multiset(ordered);
    }
  }

  /**
   Agreement. After a full recomputation the scores of every round that was held are what the
   round-by-round computation gives from the prior scores read back from the recomputed rounds.
   */
  lemma AgreesWithPriorScores(rounds: seq<Round>, rw: RoleWeight, i: nat)
    requires DistinctNumbers(rounds) && PlannedAreEmpty(rounds)
    requires i < |RecomputeAll(rounds, rw)|
    ensures var after := RecomputeAll(rounds, rw);
            var r := after[i];
            r.number.Some? &&
            (r.interviews != [] ==>
              r.scores == Some(RoundScores(r.interviews, PriorScoresFor(after, r.number.value), IsRefreshRound(r, Lowest(after)), rw)))
  {
    var ordered, lo := SortRounds(rounds), Lowest(rounds);
    SortedFacts(rounds);
    RescoredAgrees(ordered, lo, rw, i);
    RecomputedKeeps(ordered, lo, rw);
    SameNumbersSameLowest(Recomputed(ordered, lo, rw), ordered);
  }

  // ---------- Raising a score ----------

  ghost predicate RoundLeq(a: Round, b: Round) {
    a.number == b.number && InterviewsLeq(a.interviews, b.interviews) && (a.interviews == [] ==> a == b)
  }

  /** The same rounds, with some already positive interview scores raised. */
  ghost predicate RoundsLeq(a: seq<Round>, b: seq<Round>) {
    |a| == |b| && forall i {:trigger RoundLeq(a[i], b[i])} | 0 <= i < |a| :: RoundLeq(a[i], b[i])
  }

  lemma {:induction false} InsertLeq(a: seq<Round>, b: seq<Round>, x: Round, y: Round)
    requires RoundsLeq(a, b) && RoundLeq(x, y)
    ensures RoundsLeq(Insert(a, x), Insert(b, y))
  {
    if a != [] {
      assert RoundLeq(a[|a| - 1], b[|b| - 1]);
      InsertLeq(a[..|a| - 1], b[..|b| - 1], x, y);
    }
  }

  lemma {:induction false} SortLeq(a: seq<Round>, b: seq<Round>)
    requires RoundsLeq(a, b)
    ensures RoundsLeq(SortRounds(a), SortRounds(b))
  {
    if a != [] {
      SortLeq(a[..|a| - 1], b[..|b| - 1]);
      InsertLeq(SortRounds(a[..|a| - 1]), SortRounds(b[..|b| - 1]), a[|a| - 1], b[|b| - 1]);
    }
  }

  lemma AssessedWhenSorted(rounds: seq<Round>)
    requires AllAssessed(rounds)
    ensures AllAssessed(SortRounds(rounds))
  {
    SortKeeps(rounds);
    forall r | r in SortRounds(rounds) ensures Assessed(r.interviews) {
      assert r in multiset(SortRounds(rounds));
      assert r in rounds;
    }
  }

  lemma RefreshSame(a: Round, b: Round, lo: real)
    requires RoundLeq(a, b)
    ensures IsRefreshRound(a, lo) == IsRefreshRound(b, lo)
  {
    forall i | 0 <= i < |a.interviews|
      ensures a.interviews[i].isRefresh == b.interviews[i].isRefresh && a.interviews[i].coverage == b.interviews[i].coverage
    {
      assert InterviewLeq(a.interviews[i], b.interviews[i]);
    }
    if IsRefreshRound(a, lo) {
      var iv :| iv in a.interviews && (iv.isRefresh || iv.coverage.Some?);
      var i :| 0 <= i < |a.interviews| && a.interviews[i] == iv;
      assert b.interviews[i] in b.interviews;
    }
    if IsRefreshRound(b, lo) {
      var iv :| iv in b.interviews && (iv.isRefresh || iv.coverage.Some?);
      var i :| 0 <= i < |b.interviews| && b.interviews[i] == iv;
      assert a.interviews[i] in a.interviews;
    }
  }

  ghost predicate AllAssessed(rounds: seq<Round>) {
    forall r {:trigger Assessed(r.interviews)} | r in rounds :: Assessed(r.interviews)
  }

  lemma OverlayMono(p: Scores, p': Scores, s: Scores, s': Scores)
    requires ScoresLeq(p, p') && ScoresLeq(s, s') && OnScale(p) && OnScale(p') && OnScale(s) && OnScale(s')
    ensures ScoresLeq(p + s, p' + s') && OnScale(p + s) && OnScale(p' + s')
  {
  }

  lemma RescoredMono(x: Round, y: Round, p: Scores, p': Scores, lo: real, rw: RoleWeight)
    requires RoundLeq(x, y) && ScoresLeq(p, p') && OnScale(p) && OnScale(p')
    requires Assessed(x.interviews) && Assessed(y.interviews) && x.interviews != []
    ensures var s, s' := RoundScores(x.interviews, p, IsRefreshRound(x, lo), rw), RoundScores(y.interviews, p', IsRefreshRound(y, lo), rw);
            ScoresLeq(s, s') && OnScale(s) && OnScale(s')
  {
    RefreshSame(x, y, lo);
    RoundMono(x.interviews, y.interviews, p, p', IsRefreshRound(x, lo), rw);
    RoundBounds(x.interviews, p, IsRefreshRound(x, lo), rw);
    RoundBounds(y.interviews, p', IsRefreshRound(x, lo), rw);
  }

  lemma OverlayStep(x: Round, y: Round, p: Scores, p': Scores, lo: real, rw: RoleWeight)
    requires RoundLeq(x, y) && ScoresLeq(p, p') && OnScale(p) && OnScale(p')
    requires Assessed(x.interviews) && Assessed(y.interviews)
    ensures var q, q' := Overlay(p, Rescored(x, p, lo, rw)), Overlay(p', Rescored(y, p', lo, rw));
            ScoresLeq(q, q') && OnScale(q) && OnScale(q')
  {
    if x.interviews != [] {
      RescoredMono(x, y, p, p', lo, rw);
      OverlayMono(p, p', RoundScores(x.interviews, p, IsRefreshRound(x, lo), rw), RoundScores(y.interviews, p', IsRefreshRound(y, lo), rw));
    }
  }

  /** `ps` lists the running scores before each of the ordered rounds, and after the last. */
  ghost predicate Linked(ordered: seq<Round>, ps: seq<Scores>, i: nat, lo: real, rw: RoleWeight)
    requires i < |ordered| < |ps|
  {
    ps[i + 1] == Overlay(ps[i], Rescored(ordered[i], ps[i], lo, rw))
  }

  ghost predicate Chain(ordered: seq<Round>, ps: seq<Scores>, lo: real, rw: RoleWeight) {
    |ps| == |ordered| + 1 && ps[0] == map[] && forall i {:trigger Linked(ordered, ps, i, lo, rw)} | 0 <= i < |ordered| :: Linked(ordered, ps, i, lo, rw)
  }

  function Chained(ordered: seq<Round>, lo: real, rw: RoleWeight): seq<Scores> {
    seq(|ordered| + 1, i requires 0 <= i <= |ordered| => Running(ordered, i, lo, rw))
  }

  lemma RunningIsChain(ordered: seq<Round>, lo: real, rw: RoleWeight)
    ensures Chain(ordered, Chained(ordered, lo, rw), lo, rw)
  {
  }

  lemma {:induction false} ChainMono(a: seq<Round>, b: seq<Round>, ps: seq<Scores>, ps': seq<Scores>, n: nat, lo: real, rw: RoleWeight)
    requires RoundsLeq(a, b) && AllAssessed(a) && AllAssessed(b)
    requires Chain(a, ps, lo, rw) && Chain(b, ps', lo, rw) && n <= |a|
    ensures ScoresLeq(ps[n], ps'[n]) && OnScale(ps[n]) && OnScale(ps'[n])
  {
    if n != 0 {
      ChainMono(a, b, ps, ps', n - 1, lo, rw);
      assert Linked(a, ps, n - 1, lo, rw) && Linked(b, ps', n - 1, lo, rw);
      assert RoundLeq(a[n - 1], b[n - 1]);
      assert a[n - 1] in a && b[n - 1] in b;
      assert Assessed(a[n - 1].interviews) && Assessed(b[n - 1].interviews);
      OverlayStep(a[n - 1], b[n - 1], ps[n - 1], ps'[n - 1], lo, rw);
    }
  }

  /** One round that was held, recomputed before and after the raise. */
  lemma HeldRoundMono(x: Round, y: Round, p: Scores, p': Scores, lo: real, rw: RoleWeight)
    requires RoundLeq(x, y) && x.interviews != [] && ScoresLeq(p, p') && OnScale(p) && OnScale(p')
    requires Assessed(x.interviews) && Assessed(y.interviews)
    ensures NotLowered(Rescored(x, p, lo, rw), Rescored(y, p', lo, rw))
  {
    var s, s' := RoundScores(x.interviews, p, IsRefreshRound(x, lo), rw), RoundScores(y.interviews, p', IsRefreshRound(y, lo), rw);
    RescoredMono(x, y, p, p', lo, rw);
    SameWeights(x.interviews, y.interviews);
    OverallMono(s, s', DimensionWeights(x.interviews));
  }

  /** Every dimension score, the overall under the round's own tiers, and the band are at least as high, and on the scale. */
  ghost predicate NotLowered(x: Round, y: Round) {
    && x.scores.Some? && y.scores.Some?
    && ScoresLeq(x.scores.value, y.scores.value)
    && OnScale(x.scores.value) && OnScale(y.scores.value)
    && var o, o' := Overall(x.scores.value, DimensionWeights(x.interviews)), Overall(y.scores.value, DimensionWeights(y.interviews));
       (o.Some? <==> o'.Some?) && (o.Some? ==> 1.0 <= o.value <= o'.value <= 5.0 && Band(o.value) <= Band(o'.value))
  }

  /**
   Monotonicity, end to end. Raising already positive interview scores of any rounds lowers no
   dimension score of any round, no overall and no band; everything computed stays on the scale.
   */
  lemma RaisingNeverLowers(a: seq<Round>, b: seq<Round>, rw: RoleWeight, i: nat)
    requires RoundsLeq(a, b)
    requires AllAssessed(a) && AllAssessed(b)
    requires i < |RecomputeAll(a, rw)|
    ensures |RecomputeAll(b, rw)| == |RecomputeAll(a, rw)|
    ensures RecomputeAll(a, rw)[i].interviews != [] ==> NotLowered(RecomputeAll(a, rw)[i], RecomputeAll(b, rw)[i])
  {
    SortLeq(a, b);
    SameNumbersSameLowest(a, b) by {
      forall i | 0 <= i < |a| ensures a[i].number == b[i].number { assert RoundLeq(a[i], b[i]); }
    }
    var s, s', lo := SortRounds(a), SortRounds(b), Lowest(a);
    var ps, ps' := Chained(s, lo, rw), Chained(s', lo, rw);
    AssessedWhenSorted(a);
    AssessedWhenSorted(b);
    RunningIsChain(s, lo, rw);
    RunningIsChain(s', lo, rw);
    ChainMono(s, s', ps, ps', i, lo, rw);
    assert RoundLeq(s[i], s'[i]);
    if s[i].interviews != [] {
      assert s[i] in s && s'[i] in s';
      assert Assessed(s[i].interviews) && Assessed(s'[i].interviews);
      HeldRoundMono(s[i], s'[i], ps[i], ps'[i], lo, rw);
    }
  }
}
