/**
 What a dimension's score means: it lies between what was contributed to it, a weightless role does not
 move it, full coverage replaces the earlier score and no coverage keeps it.
 */
module ScoringMeaning {
  import opened Options
  import opened Scoring
  import opened ScoringMonotone

  ghost predicate Between(es: seq<Entry>, lo: real, hi: real) {
    forall i | 0 <= i < |es| :: lo <= es[i].score <= hi && 0.0 <= es[i].weight
  }

  /** The sum `s` of weighted scores lies between `lo` and `hi` times the sum `w` of the weights. */
  predicate Bounds(lo: real, w: real, s: real, hi: real) {
    lo * w <= s <= hi * w
  }

  lemma WidenBetween(w: real, s: real, dw: real, ds: real, lo: real, hi: real)
    requires Bounds(lo, w, s, hi) && Bounds(lo, dw, ds, hi)
    ensures Bounds(lo, w + dw, s + ds, hi)
  {
    assert lo * (w + dw) == lo * w + lo * dw && hi * (w + dw) == hi * w + hi * dw;
  }

  lemma TermBetween(x: Entry, lo: real, hi: real)
    requires lo <= x.score <= hi && 0.0 <= x.weight
    ensures Bounds(lo, x.weight, x.score * x.weight, hi)
  {
    MulMono(lo, x.score, x.weight);
    MulMono(x.score, hi, x.weight);
  }

  lemma {:induction false} WeightedBetween(es: seq<Entry>, lo: real, hi: real)
    requires Between(es, lo, hi)
    ensures Bounds(lo, Weight(es), Weighted(es), hi)
  {
    if es != [] {
      var x, init := es[|es| - 1], es[..|es| - 1];
      WeightedBetween(init, lo, hi);
      TermBetween(x, lo, hi);
      WidenBetween(Weight(init), Weighted(init), x.weight, x.score * x.weight, lo, hi);
    }
  }

  lemma {:induction false} TotalBetween(es: seq<Entry>, count: real, lo: real, hi: real)
    requires Between(es, lo, hi) && count == |es| as real
    ensures lo * count <= Total(es) <= hi * count
  {
    if es != [] {
      var x, init := es[|es| - 1], es[..|es| - 1];
      TotalBetween(init, count - 1.0, lo, hi);
      WidenBetween(count - 1.0, Total(init), 1.0, x.score, lo, hi);
    }
  }

  lemma MeanIsBetween(es: seq<Entry>, lo: real, hi: real)
    requires es != [] && Between(es, lo, hi)
    ensures lo <= Mean(es) <= hi
  {
    if Weight(es) > 0.0 {
      WeightedBetween(es, lo, hi);
      DivBounds(Weighted(es), Weight(es), lo, hi);
    } else {
      TotalBetween(es, |es| as real, lo, hi);
      DivBounds(Total(es), |es| as real, lo, hi);
    }
  }

  lemma BlendIsBetween(p: real, r: real, w: real, lo: real, hi: real)
    requires lo <= p <= hi && lo <= r <= hi && 0.0 <= w <= 1.0
    ensures lo <= Blend(p, r, w) <= hi
  {
    BlendMono(lo, p, lo, r, w);
    BlendMono(p, hi, r, hi, w);
    assert Blend(lo, lo, w) == lo && Blend(hi, hi, w) == hi;
  }

  /**
   A score lies between the least and the greatest that went into it, the earlier score included where
   it is blended in, each rounded; so unanimous interviews give exactly their score.
   */
  lemma ScoreIsBetween(ivs: seq<Interview>, prior: Scores, refresh: bool, rw: RoleWeight, d: nat, lo: real, hi: real)
    requires EntriesOf(ivs, d, rw) != [] && Between(EntriesOf(ivs, d, rw), lo, hi)
    requires refresh && d in prior ==> lo <= prior[d] <= hi
    ensures var s := DimScore(ivs, prior, refresh, rw, d);
            s.Some? && Round1(lo) <= s.value <= Round1(hi) && (lo == hi ==> s.value == Round1(lo))
  {
    var es := EntriesOf(ivs, d, rw);
    MeanIsBetween(es, lo, hi);
    var score := if refresh && d in prior then Blend(prior[d], Mean(es), BlendWeight(es)) else Mean(es);
    if refresh && d in prior { BlendIsBetween(prior[d], Mean(es), BlendWeight(es), lo, hi); }
    Round1Mono(lo, score);
    Round1Mono(score, hi);
  }

  // ---------- Weights ----------

  lemma {:induction false} SumsSplit(a: seq<Entry>, b: seq<Entry>)
    ensures Weight(a + b) == Weight(a) + Weight(b) && Weighted(a + b) == Weighted(a) + Weighted(b)
  {
    if b == [] {
      assert a + b == a;
    } else {
      SumsSplit(a, b[..|b| - 1]);
      assert (a + b)[..|a + b| - 1] == a + b[..|b| - 1];
    }
  }

  /** A role without weight does not move a score that any role with weight has spoken to. */
  lemma WeightlessIsIgnored(a: seq<Entry>, e: Entry, b: seq<Entry>)
    requires e.weight == 0.0 && Weight(a + b) > 0.0
    ensures Mean(a + [e] + b) == Mean(a + b)
  {
    SumsSplit(a, b);
    SumsSplit(a + [e], b);
    SumsSplit(a, [e]);
    assert [e][..0] == [];
  }

  // ---------- Coverage ----------

  ghost predicate Covered(es: seq<Entry>, cov: real) {
    forall i | 0 <= i < |es| :: es[i].cov == Some(cov)
  }

  lemma {:induction false} CoverageSums(es: seq<Entry>, cov: real)
    requires Covered(es, cov)
    ensures CoverageWeight(es) == Weight(es) && CoverageWeighted(es) == cov * Weight(es)
  {
    if es != [] {
      var init, x := es[..|es| - 1], es[|es| - 1];
      CoverageSums(init, cov);
      assert cov * (Weight(init) + x.weight) == cov * Weight(init) + cov * x.weight;
    }
  }

  lemma BlendWeightIsCoverage(es: seq<Entry>, cov: real)
    requires Covered(es, cov) && Weight(es) > 0.0 && 0.0 <= cov <= 1.0
    ensures BlendWeight(es) == cov
  {
    CoverageSums(es, cov);
    Cancels(cov, Weight(es));
    assert CoverageWeighted(es) / CoverageWeight(es) == cov;
  }

  lemma Cancels(c: real, t: real)
    requires t > 0.0
    ensures c * t / t == c
  {
  }

  /** On a follow-up round a dimension examined in full takes the round's own score, and one not re-examined at all keeps the earlier one. */
  lemma CoverageDecides(ivs: seq<Interview>, prior: Scores, rw: RoleWeight, d: nat, cov: real)
    requires d in prior && EntriesOf(ivs, d, rw) != [] && Covered(EntriesOf(ivs, d, rw), cov) && Weight(EntriesOf(ivs, d, rw)) > 0.0
    ensures cov == 1.0 ==> DimScore(ivs, prior, true, rw, d) == DimScore(ivs, prior, false, rw, d)
    ensures cov == 0.0 ==> DimScore(ivs, prior, true, rw, d) == Some(Round1(prior[d]))
  {
    var es := EntriesOf(ivs, d, rw);
    if 0.0 <= cov <= 1.0 { BlendWeightIsCoverage(es, cov); }
    assert Blend(prior[d], Mean(es), 1.0) == Mean(es) && Blend(prior[d], Mean(es), 0.0) == prior[d];
  }

  // ---------- By interviews ----------

  /** What role `role` weighs on the dimension; no role weighs less than nothing. */
  function Say(rw: RoleWeight, d: nat, role: string): real {
    if rw(d, role) < 0.0 then 0.0 else rw(d, role)
  }

  /** The weights, and the weighted scores, of the interviews that have evidence on the dimension. */
  function SayOfAll(ivs: seq<Interview>, d: nat, rw: RoleWeight): (real, real) {
    if ivs == [] then (0.0, 0.0)
    else
      var (w, ws), iv := SayOfAll(ivs[..|ivs| - 1], d, rw), ivs[|ivs| - 1];
      if d in iv.scores && iv.scores[d] > 0.0
      then (w + Say(rw, d, iv.role), ws + iv.scores[d] * Say(rw, d, iv.role)) else (w, ws)
  }

  lemma {:induction false} EntriesWeigh(ivs: seq<Interview>, d: nat, rw: RoleWeight)
    ensures SayOfAll(ivs, d, rw) == (Weight(EntriesOf(ivs, d, rw)), Weighted(EntriesOf(ivs, d, rw)))
  {
    if ivs != [] {
      var init, iv := ivs[..|ivs| - 1], ivs[|ivs| - 1];
      EntriesWeigh(init, d, rw);
      var es := EntriesOf(init, d, rw);
      assert SayOfAll(init, d, rw) == (Weight(es), Weighted(es));
      if Contributes(iv, d) {
        EntryWeighs(es, iv, d, rw);
      } else {
        assert EntriesOf(ivs, d, rw) == es + [] == es;
      }
    }
  }

  lemma EntryWeighs(es: seq<Entry>, iv: Interview, d: nat, rw: RoleWeight)
    requires Contributes(iv, d)
    ensures var all := es + [EntryOf(iv, d, rw)];
            Weight(all) == Weight(es) + Say(rw, d, iv.role) && Weighted(all) == Weighted(es) + iv.scores[d] * Say(rw, d, iv.role)
  {
    var e := EntryOf(iv, d, rw);
    assert (es + [e])[..|es|] == es;
    assert e.weight == Say(rw, d, iv.role) && e.score == iv.scores[d];
  }

  /**
   Each interview weighs as its role does: on a first round a dimension's score is the mean of the scores of the
   interviews with evidence on it, each with the weight of its own role there.
   */
  lemma RolesWeigh(ivs: seq<Interview>, prior: Scores, rw: RoleWeight, d: nat)
    requires SayOfAll(ivs, d, rw).0 > 0.0
    ensures DimScore(ivs, prior, false, rw, d) == Some(Round1(SayOfAll(ivs, d, rw).1 / SayOfAll(ivs, d, rw).0))
  {
    EntriesWeigh(ivs, d, rw);
  }

  /** The same of the interviews that also say how much of the dimension they covered: the weights, and the weighted shares. */
  function CoveredOfAll(ivs: seq<Interview>, d: nat, rw: RoleWeight): (real, real) {
    if ivs == [] then (0.0, 0.0)
    else
      var (w, wc), iv := CoveredOfAll(ivs[..|ivs| - 1], d, rw), ivs[|ivs| - 1];
      if d in iv.scores && iv.scores[d] > 0.0 && iv.coverage.Some? && d in iv.coverage.value
      then (w + Say(rw, d, iv.role), wc + Clamp01(iv.coverage.value[d]) * Say(rw, d, iv.role)) else (w, wc)
  }

  lemma EntryCovers(es: seq<Entry>, iv: Interview, d: nat, rw: RoleWeight)
    requires Contributes(iv, d)
    ensures var all, covers := es + [EntryOf(iv, d, rw)], iv.coverage.Some? && d in iv.coverage.value;
            && CoverageWeight(all) == CoverageWeight(es) + (if covers then Say(rw, d, iv.role) else 0.0)
            && CoverageWeighted(all) == CoverageWeighted(es) + (if covers then Clamp01(iv.coverage.value[d]) * Say(rw, d, iv.role) else 0.0)
  {
    var e := EntryOf(iv, d, rw);
    assert (es + [e])[..|es|] == es;
    assert e.weight == Say(rw, d, iv.role);
  }

  lemma {:induction false} EntriesCover(ivs: seq<Interview>, d: nat, rw: RoleWeight)
    ensures CoveredOfAll(ivs, d, rw).0 == CoverageWeight(EntriesOf(ivs, d, rw))
    ensures CoveredOfAll(ivs, d, rw).1 == CoverageWeighted(EntriesOf(ivs, d, rw))
  {
    if ivs != [] {
      var init, iv := ivs[..|ivs| - 1], ivs[|ivs| - 1];
      var es := EntriesOf(init, d, rw);
      EntriesCover(init, d, rw);
      if Contributes(iv, d) {
        EntryCovers(es, iv, d, rw);
        assert EntriesOf(ivs, d, rw) == es + [EntryOf(iv, d, rw)];
      } else {
        assert EntriesOf(ivs, d, rw) == es + [] == es;
      }
    }
  }

  function ShareCovered(w: real, wc: real): real {
    Clamp01(if w > 0.0 then wc / w else 0.3)
  }

  /** From `p` the share `w` of the way to `r`. */
  function Moved(p: real, r: real, w: real): real {
    p * (1.0 - w) + r * w
  }

  lemma BlendMoves(p: real, r: real, w: real)
    ensures Blend(p, r, w) == Moved(p, r, w)
  {
  }

  lemma WeighedMean(es: seq<Entry>, w: real, ws: real)
    requires w == Weight(es) > 0.0 && ws == Weighted(es)
    ensures es != [] && Mean(es) == ws / w
  {
  }

  lemma SharedWeight(es: seq<Entry>, w: real, wc: real)
    requires w == CoverageWeight(es) && wc == CoverageWeighted(es)
    ensures BlendWeight(es) == ShareCovered(w, wc)
  {
  }

  /**
   On a follow-up round a dimension that is re-examined moves from its earlier score by the share that was covered: the mean of
   the shares told, each with the weight of its role, and three tenths if none is told with any weight.
   */
  lemma CoverageWeighs(ivs: seq<Interview>, prior: Scores, rw: RoleWeight, d: nat)
    requires d in prior && SayOfAll(ivs, d, rw).0 > 0.0
    ensures var said, covered := SayOfAll(ivs, d, rw), CoveredOfAll(ivs, d, rw);
            DimScore(ivs, prior, true, rw, d) == Some(Round1(Moved(prior[d], said.1 / said.0, ShareCovered(covered.0, covered.1))))
  {
    var es := EntriesOf(ivs, d, rw);
    EntriesWeigh(ivs, d, rw);
    EntriesCover(ivs, d, rw);
    WeighedMean(es, SayOfAll(ivs, d, rw).0, SayOfAll(ivs, d, rw).1);
    SharedWeight(es, CoveredOfAll(ivs, d, rw).0, CoveredOfAll(ivs, d, rw).1);
    BlendMoves(prior[d], Mean(es), BlendWeight(es));
  }

  // ---------- Bands and weights ----------

  /** One band up for each of four thresholds that the score reaches. */
  lemma BandCounts(x: real)
    ensures Band(x) == (if 1.5 <= x then 1 else 0) + (if 2.5 <= x then 1 else 0) + (if 3.5 <= x then 1 else 0) + (if 4.5 <= x then 1 else 0)
  {
  }

  /** What an interview's tier on a dimension counts for, in tenths. */
  function Tenths(iv: Interview, d: nat): nat {
    if iv.tiers.None? || d !in iv.tiers.value then 0
    else match iv.tiers.value[d]
      case Lead => 10
      case Cover => 6
      case Light => 3
      case Excluded => 0
  }

  function AllTenths(ivs: seq<Interview>, d: nat): nat {
    if ivs == [] then 0 else AllTenths(ivs[..|ivs| - 1], d) + Tenths(ivs[|ivs| - 1], d)
  }

  lemma {:induction false} TiersAddUp(ivs: seq<Interview>, d: nat)
    ensures TierSum(ivs, d) == AllTenths(ivs, d) as real / 10.0
  {
    if ivs != [] { TiersAddUp(ivs[..|ivs| - 1], d); }
  }

  predicate CountsOn(ivs: seq<Interview>, d: nat) {
    d < DIMS && AllTenths(ivs, d) > 0
  }

  predicate AllTiered(ivs: seq<Interview>) {
    forall iv | iv in ivs :: iv.tiers.Some?
  }

  lemma NobodyCounts(ivs: seq<Interview>, d: nat)
    requires CountsOn(ivs, d)
    ensures ivs != []
  {
  }

  /** A round has weights exactly if all its interviews have tiers and one counts somewhere; each is then the sum of what they count for. */
  lemma WeightsExactly(ivs: seq<Interview>)
    ensures DimensionWeights(ivs).Some? <==> AllTiered(ivs) && exists d :: CountsOn(ivs, d)
    ensures DimensionWeights(ivs).Some? ==>
              forall d: nat :: (d in DimensionWeights(ivs).value <==> d < DIMS) &&
                (d < DIMS ==> DimensionWeights(ivs).value[d] == AllTenths(ivs, d) as real / 10.0)
  {
    forall d: nat ensures TierSum(ivs, d) == AllTenths(ivs, d) as real / 10.0 { TiersAddUp(ivs, d); }
    var w := map d | 0 <= d < DIMS :: TierSum(ivs, d);
    forall d: nat ensures d in w && w[d] > 0.0 <==> CountsOn(ivs, d) { }
    if d :| CountsOn(ivs, d) {
      NobodyCounts(ivs, d);
      assert d in w && w[d] > 0.0;
    }
    if AllTiered(ivs) && ivs != [] {
      assert DimensionWeights(ivs) == if exists d :: d in w && w[d] > 0.0 then Some(w) else None;
    }
  }
}
