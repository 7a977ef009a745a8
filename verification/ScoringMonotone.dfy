/**
 Raising an interview score never lowers a score, an overall or a band, and every computed score
 stays on the scale from 1 to 5.
 */
module ScoringMonotone {
  import opened Scoring
  import opened Options

  // ---------- Real arithmetic ----------

  lemma MulMono(a: real, b: real, w: real)
    requires a <= b && 0.0 <= w
    ensures a * w <= b * w
  {
  }

  lemma DivMono(a: real, b: real, w: real)
    requires a <= b && 0.0 < w
    ensures a / w <= b / w
  {
    assert (b - a) / w >= 0.0;
    assert b / w - a / w == (b - a) / w;
  }

  lemma DivBounds(a: real, w: real, lo: real, hi: real)
    requires 0.0 < w && lo * w <= a <= hi * w
    ensures lo <= a / w <= hi
  {
    DivMono(lo * w, a, w);
    DivMono(a, hi * w, w);
    assert lo * w / w == lo && hi * w / w == hi;
  }

  lemma Round1Mono(x: real, y: real)
    requires x <= y
    ensures Round1(x) <= Round1(y)
  {
    var a, b := 10.0 * x + 0.5, 10.0 * y + 0.5;
    assert a <= b;
    assert a.Floor <= b.Floor;
    DivMono(a.Floor as real, b.Floor as real, 10.0);
  }

  lemma Round1Bounds(x: real)
    requires 1.0 <= x <= 5.0
    ensures 1.0 <= Round1(x) <= 5.0
  {
    Round1Mono(1.0, x);
    Round1Mono(x, 5.0);
    assert (10.0 * 1.0 + 0.5).Floor == 10 && (10.0 * 5.0 + 0.5).Floor == 50;
  }

  lemma BlendMono(p: real, p': real, r: real, r': real, w: real)
    requires p <= p' && r <= r' && 0.0 <= w <= 1.0
    ensures Blend(p, r, w) <= Blend(p', r', w)
  {
    MulMono(p, p', 1.0 - w);
    MulMono(r, r', w);
    assert p * (1.0 - w) <= p' * (1.0 - w) && r * w <= r' * w;
  }

  lemma BlendBounds(p: real, r: real, w: real)
    requires 1.0 <= p <= 5.0 && 1.0 <= r <= 5.0 && 0.0 <= w <= 1.0
    ensures 1.0 <= Blend(p, r, w) <= 5.0
  {
    BlendMono(1.0, p, 1.0, r, w);
    BlendMono(p, 5.0, r, 5.0, w);
    assert Blend(1.0, 1.0, w) == 1.0 && Blend(5.0, 5.0, w) == 5.0;
  }

  // ---------- The order ----------

  /** The same dimensions, each at least as high. */
  ghost predicate ScoresLeq(a: Scores, b: Scores) {
    a.Keys == b.Keys && forall d :: d in a ==> a[d] <= b[d]
  }

  ghost predicate OnScale(s: Scores) {
    forall d :: d in s ==> 1.0 <= s[d] <= 5.0
  }

  /** The same interview with some already positive scores raised. */
  ghost predicate InterviewLeq(a: Interview, b: Interview) {
    && a.(scores := map[]) == b.(scores := map[])
    && a.scores.Keys == b.scores.Keys
    && forall d :: d in a.scores ==> a.scores[d] <= b.scores[d] && (a.scores[d] <= 0.0 ==> b.scores[d] == a.scores[d])
  }

  ghost predicate InterviewsLeq(a: seq<Interview>, b: seq<Interview>) {
    |a| == |b| && forall i {:trigger InterviewLeq(a[i], b[i])} | 0 <= i < |a| :: InterviewLeq(a[i], b[i])
  }

  /** Positive interview scores are on the scale; zero and below mean that there is no evidence. */
  ghost predicate Assessed(ivs: seq<Interview>) {
    forall iv, d :: iv in ivs && Contributes(iv, d) ==> iv.scores[d] <= 5.0 && 1.0 <= iv.scores[d]
  }

  ghost predicate EntryLeq(a: Entry, b: Entry) {
    a.score <= b.score && 0.0 <= a.weight == b.weight && a.cov == b.cov
  }

  ghost predicate EntriesLeq(a: seq<Entry>, b: seq<Entry>) {
    |a| == |b| && forall i | 0 <= i < |a| :: EntryLeq(a[i], b[i])
  }

  ghost predicate EntriesOnScale(es: seq<Entry>) {
    forall i | 0 <= i < |es| :: 1.0 <= es[i].score <= 5.0 && 0.0 <= es[i].weight
  }

  lemma {:induction false} RaisedEntries(a: seq<Interview>, b: seq<Interview>, d: nat, rw: RoleWeight)
    requires InterviewsLeq(a, b)
    ensures EntriesLeq(EntriesOf(a, d, rw), EntriesOf(b, d, rw))
  {
    if a != [] {
      RaisedEntries(a[..|a| - 1], b[..|b| - 1], d, rw);
      assert InterviewLeq(a[|a| - 1], b[|b| - 1]);
    }
  }

  lemma {:induction false} EntriesStayOnScale(ivs: seq<Interview>, d: nat, rw: RoleWeight)
    requires Assessed(ivs)
    ensures EntriesOnScale(EntriesOf(ivs, d, rw))
  {
    if ivs != [] {
      EntriesStayOnScale(ivs[..|ivs| - 1], d, rw);
      assert ivs[|ivs| - 1] in ivs;
    }
  }

  lemma {:induction false} SumsMono(a: seq<Entry>, b: seq<Entry>)
    requires EntriesLeq(a, b)
    ensures Weight(a) == Weight(b) && Weighted(a) <= Weighted(b) && Total(a) <= Total(b)
    ensures CoverageWeight(a) == CoverageWeight(b) && CoverageWeighted(a) == CoverageWeighted(b)
  {
    if a != [] {
      var x, y := a[|a| - 1], b[|b| - 1];
      SumsMono(a[..|a| - 1], b[..|b| - 1]);
      assert EntryLeq(x, y);
      MulMono(x.score, y.score, x.weight);
    }
  }

  lemma Widen(w: real, s: real, dw: real, ds: real)
    requires 1.0 * w <= s <= 5.0 * w && 1.0 * dw <= ds <= 5.0 * dw
    ensures 1.0 * (w + dw) <= s + ds <= 5.0 * (w + dw)
  {
  }

  lemma {:induction false} SumsBounded(es: seq<Entry>)
    requires EntriesOnScale(es)
    ensures 1.0 * Weight(es) <= Weighted(es) <= 5.0 * Weight(es)
    ensures 1.0 * |es| as real <= Total(es) <= 5.0 * |es| as real
  {
    if es != [] {
      var x, init := es[|es| - 1], es[..|es| - 1];
      SumsBounded(init);
      MulMono(1.0, x.score, x.weight);
      MulMono(x.score, 5.0, x.weight);
      Widen(Weight(init), Weighted(init), x.weight, x.score * x.weight);
    }
  }

  lemma MeanMono(a: seq<Entry>, b: seq<Entry>)
    requires a != [] && EntriesLeq(a, b)
    ensures Mean(a) <= Mean(b)
  {
    SumsMono(a, b);
    if Weight(a) > 0.0 {
      DivMono(Weighted(a), Weighted(b), Weight(a));
    } else {
      DivMono(Total(a), Total(b), |a| as real);
    }
  }

  lemma MeanBounds(es: seq<Entry>)
    requires es != [] && EntriesOnScale(es)
    ensures 1.0 <= Mean(es) <= 5.0
  {
    SumsBounded(es);
    if Weight(es) > 0.0 {
      DivBounds(Weighted(es), Weight(es), 1.0, 5.0);
    } else {
      DivBounds(Total(es), |es| as real, 1.0, 5.0);
    }
  }

  // ---------- One round ----------

  lemma DimScoreMono(a: seq<Interview>, b: seq<Interview>, p: Scores, p': Scores, refresh: bool, rw: RoleWeight, d: nat)
    requires InterviewsLeq(a, b) && ScoresLeq(p, p')
    ensures DimScore(a, p, refresh, rw, d).Some? <==> DimScore(b, p', refresh, rw, d).Some?
    ensures DimScore(a, p, refresh, rw, d).Some? ==> DimScore(a, p, refresh, rw, d).value <= DimScore(b, p', refresh, rw, d).value
  {
    var es, es' := EntriesOf(a, d, rw), EntriesOf(b, d, rw);
    RaisedEntries(a, b, d, rw);
    if es != [] {
      SumsMono(es, es');
      MeanMono(es, es');
      if refresh && d in p {
        BlendMono(p[d], p'[d], Mean(es), Mean(es'), BlendWeight(es));
        Round1Mono(Blend(p[d], Mean(es), BlendWeight(es)), Blend(p'[d], Mean(es'), BlendWeight(es)));
      } else {
        Round1Mono(Mean(es), Mean(es'));
      }
    }
  }

  lemma DimScoreBounds(ivs: seq<Interview>, p: Scores, refresh: bool, rw: RoleWeight, d: nat)
    requires Assessed(ivs) && OnScale(p) && DimScore(ivs, p, refresh, rw, d).Some?
    ensures 1.0 <= DimScore(ivs, p, refresh, rw, d).value <= 5.0
  {
    var es := EntriesOf(ivs, d, rw);
    EntriesStayOnScale(ivs, d, rw);
    if es != [] {
      MeanBounds(es);
      if refresh && d in p {
        BlendBounds(p[d], Mean(es), BlendWeight(es));
        Round1Bounds(Blend(p[d], Mean(es), BlendWeight(es)));
      } else {
        Round1Bounds(Mean(es));
      }
    }
  }

  lemma RoundMono(a: seq<Interview>, b: seq<Interview>, p: Scores, p': Scores, refresh: bool, rw: RoleWeight)
    requires InterviewsLeq(a, b) && ScoresLeq(p, p')
    ensures ScoresLeq(RoundScores(a, p, refresh, rw), RoundScores(b, p', refresh, rw))
  {
    forall d: nat
      ensures DimScore(a, p, refresh, rw, d).Some? <==> DimScore(b, p', refresh, rw, d).Some?
      ensures DimScore(a, p, refresh, rw, d).Some? ==> DimScore(a, p, refresh, rw, d).value <= DimScore(b, p', refresh, rw, d).value
    {
      DimScoreMono(a, b, p, p', refresh, rw, d);
    }
  }

  lemma RoundBounds(ivs: seq<Interview>, p: Scores, refresh: bool, rw: RoleWeight)
    requires Assessed(ivs) && OnScale(p)
    ensures OnScale(RoundScores(ivs, p, refresh, rw))
  {
    forall d | d in RoundScores(ivs, p, refresh, rw) ensures 1.0 <= RoundScores(ivs, p, refresh, rw)[d] <= 5.0 {
      DimScoreBounds(ivs, p, refresh, rw, d);
    }
  }

  // ---------- Overall and band ----------

  lemma CountedTerm(x: real, y: real, w: real)
    requires 1.0 <= x <= y <= 5.0 && 0.0 <= w
    ensures x * w <= y * w && 1.0 * w <= x * w <= 5.0 * w
  {
    MulMono(x, y, w);
    MulMono(1.0, x, w);
    MulMono(x, 5.0, w);
  }

  lemma {:induction false} OverallSumMono(a: Scores, b: Scores, w: Option<map<nat, real>>, n: nat)
    requires ScoresLeq(a, b) && OnScale(a) && OnScale(b)
    ensures OverallWeight(a, w, n) == OverallWeight(b, w, n)
    ensures OverallSum(a, w, n) <= OverallSum(b, w, n)
  {
    if n != 0 {
      OverallSumMono(a, b, w, n - 1);
      if Counted(a, w, n - 1) {
        CountedTerm(a[n - 1], b[n - 1], DimWeight(w, n - 1));
      }
    }
  }

  lemma {:induction false} OverallSumBounds(a: Scores, w: Option<map<nat, real>>, n: nat)
    requires OnScale(a)
    ensures 1.0 * OverallWeight(a, w, n) <= OverallSum(a, w, n) <= 5.0 * OverallWeight(a, w, n)
  {
    if n != 0 {
      OverallSumBounds(a, w, n - 1);
      if Counted(a, w, n - 1) {
        var x, dw := a[n - 1], DimWeight(w, n - 1);
        CountedTerm(x, x, dw);
        Widen(OverallWeight(a, w, n - 1), OverallSum(a, w, n - 1), dw, x * dw);
      }
    }
  }

  /** Higher scores, the same weights: the overall exists in both cases, is on the scale, and is at least as high. */
  lemma OverallMono(a: Scores, b: Scores, w: Option<map<nat, real>>)
    requires ScoresLeq(a, b) && OnScale(a) && OnScale(b)
    ensures Overall(a, w).Some? <==> Overall(b, w).Some?
    ensures Overall(a, w).Some? ==> 1.0 <= Overall(a, w).value <= Overall(b, w).value <= 5.0
    ensures Overall(a, w).Some? ==> Band(Overall(a, w).value) <= Band(Overall(b, w).value)
  {
    OverallSumMono(a, b, w, DIMS);
    OverallSumBounds(a, w, DIMS);
    OverallSumBounds(b, w, DIMS);
    var t := OverallWeight(a, w, DIMS);
    if t > 0.0 {
      var x, y := OverallSum(a, w, DIMS), OverallSum(b, w, DIMS);
      DivMono(x, y, t);
      DivBounds(x, t, 1.0, 5.0);
      DivBounds(y, t, 1.0, 5.0);
      Round1Mono(x / t, y / t);
      Round1Bounds(x / t);
      Round1Bounds(y / t);
    }
  }

  lemma {:induction false} SameTiers(a: seq<Interview>, b: seq<Interview>, d: nat)
    requires InterviewsLeq(a, b)
    ensures TierSum(a, d) == TierSum(b, d)
  {
    if a != [] {
      SameTiers(a[..|a| - 1], b[..|b| - 1], d);
      assert InterviewLeq(a[|a| - 1], b[|b| - 1]);
    }
  }

  /** The weights come from the tiers, so raising a score does not move them. */
  lemma SameWeights(a: seq<Interview>, b: seq<Interview>)
    requires InterviewsLeq(a, b)
    ensures DimensionWeights(a) == DimensionWeights(b)
  {
    forall d ensures TierSum(a, d) == TierSum(b, d) {
      SameTiers(a, b, d);
    }
    forall i | 0 <= i < |a| ensures a[i].tiers == b[i].tiers {
      assert InterviewLeq(a[i], b[i]);
    }
    if a != [] {
      assert (exists iv :: iv in a && iv.tiers.None?) <==> (exists iv :: iv in b && iv.tiers.None?) by {
        forall iv | iv in a && iv.tiers.None? ensures exists x :: x in b && x.tiers.None? {
          var i :| 0 <= i < |a| && a[i] == iv;
          assert b[i] in b;
        }
        forall iv | iv in b && iv.tiers.None? ensures exists x :: x in a && x.tiers.None? {
          var i :| 0 <= i < |b| && b[i] == iv;
          assert a[i] in a;
        }
      }
      var wa := map d | 0 <= d < DIMS :: TierSum(a, d);
      var wb := map d | 0 <= d < DIMS :: TierSum(b, d);
      assert wa == wb;
    }
  }
}
