/**
 The scoring formula: a weighted mean per dimension, blended with the prior round by coverage on a
 follow-up round, carried forward where nobody was asked; an overall across dimensions; a band.
 */
module Scoring {
  import opened Options

  const DIMS: nat := 7
  const DEFAULT_COVERAGE_WEIGHT: real := 0.3

  datatype Tier = Lead | Cover | Light | Excluded

  /** One interview: its finite scores by dimension, the share of each dimension it re-examined, and its tiers. */
  datatype Interview = Interview(
    role: string,
    scores: map<nat, real>,
    coverage: Option<map<nat, real>>,
    isRefresh: bool,
    tiers: Option<map<nat, Tier>>)

  type RoleWeight = (nat, string) -> real

  type Scores = map<nat, real>

  function Round1(x: real): real {
    (10.0 * x + 0.5).Floor as real / 10.0
  }

  function Clamp01(x: real): real {
    if x < 0.0 then 0.0 else if x > 1.0 then 1.0 else x
  }

  function At(m: map<nat, real>, d: nat): Option<real> {
    if d in m then Some(m[d]) else None
  }

  /** What one interview contributes to a dimension. */
  datatype Entry = Entry(score: real, weight: real, cov: Option<real>)

  function EntryOf(iv: Interview, d: nat, rw: RoleWeight): Entry
    requires d in iv.scores
  {
    var w := rw(d, iv.role);
    var cov := if iv.coverage.Some? then At(iv.coverage.value, d) else None;
    Entry(iv.scores[d], if w < 0.0 then 0.0 else w, if cov.Some? then Some(Clamp01(cov.value)) else None)
  }

  /** A score of zero means that there is no evidence. */
  predicate Contributes(iv: Interview, d: nat) {
    d in iv.scores && iv.scores[d] > 0.0
  }

  function EntriesOf(ivs: seq<Interview>, d: nat, rw: RoleWeight): seq<Entry> {
    if ivs == [] then []
    else EntriesOf(ivs[..|ivs| - 1], d, rw) +
         (if Contributes(ivs[|ivs| - 1], d) then [EntryOf(ivs[|ivs| - 1], d, rw)] else [])
  }

  function Weight(es: seq<Entry>): real {
    if es == [] then 0.0 else Weight(es[..|es| - 1]) + es[|es| - 1].weight
  }

  function Weighted(es: seq<Entry>): real {
    if es == [] then 0.0 else Weighted(es[..|es| - 1]) + es[|es| - 1].score * es[|es| - 1].weight
  }

  function Total(es: seq<Entry>): real {
    if es == [] then 0.0 else Total(es[..|es| - 1]) + es[|es| - 1].score
  }

  function Mean(es: seq<Entry>): real
    requires es != []
  {
    if Weight(es) > 0.0 then Weighted(es) / Weight(es) else Total(es) / |es| as real
  }

  function CoverageWeight(es: seq<Entry>): real {
    if es == [] then 0.0
    else CoverageWeight(es[..|es| - 1]) + (if es[|es| - 1].cov.Some? then es[|es| - 1].weight else 0.0)
  }

  function CoverageWeighted(es: seq<Entry>): real {
    if es == [] then 0.0
    else CoverageWeighted(es[..|es| - 1]) +
         (if es[|es| - 1].cov.Some? then es[|es| - 1].cov.value * es[|es| - 1].weight else 0.0)
  }

  /** How much of a blended score comes from this round. */
  function BlendWeight(es: seq<Entry>): (w: real)
    ensures 0.0 <= w <= 1.0
  {
    Clamp01(if CoverageWeight(es) > 0.0 then CoverageWeighted(es) / CoverageWeight(es) else DEFAULT_COVERAGE_WEIGHT)
  }

  function Blend(prior: real, raw: real, w: real): real {
    prior * (1.0 - w) + raw * w
  }

  function DimScore(ivs: seq<Interview>, prior: Scores, refresh: bool, rw: RoleWeight, d: nat): Option<real> {
    var es := EntriesOf(ivs, d, rw);
    if es == [] then At(prior, d)
    else if refresh && d in prior then Some(Round1(Blend(prior[d], Mean(es), BlendWeight(es))))
    else Some(Round1(Mean(es)))
  }

  function RoundScores(ivs: seq<Interview>, prior: Scores, refresh: bool, rw: RoleWeight): Scores {
    map d | 0 <= d < DIMS && DimScore(ivs, prior, refresh, rw, d).Some? :: DimScore(ivs, prior, refresh, rw, d).value
  }

  // ---------- Overall and band ----------

  function Counted(scores: Scores, weights: Option<map<nat, real>>, d: nat): bool {
    d in scores && scores[d] > 0.0 && (weights.Some? ==> d in weights.value && weights.value[d] > 0.0)
  }

  function DimWeight(weights: Option<map<nat, real>>, d: nat): real {
    if weights.None? then 1.0 else if d in weights.value then weights.value[d] else 0.0
  }

  function OverallSum(scores: Scores, weights: Option<map<nat, real>>, n: nat): real {
    if n == 0 then 0.0
    else OverallSum(scores, weights, n - 1) +
         (if Counted(scores, weights, n - 1) then scores[n - 1] * DimWeight(weights, n - 1) else 0.0)
  }

  function OverallWeight(scores: Scores, weights: Option<map<nat, real>>, n: nat): real {
    if n == 0 then 0.0
    else OverallWeight(scores, weights, n - 1) + (if Counted(scores, weights, n - 1) then DimWeight(weights, n - 1) else 0.0)
  }

  function Overall(scores: Scores, weights: Option<map<nat, real>>): Option<real> {
    if OverallWeight(scores, weights, DIMS) > 0.0
    then Some(Round1(OverallSum(scores, weights, DIMS) / OverallWeight(scores, weights, DIMS)))
    else None
  }

  /** The band of a score, from 0 (AI Unaware) to 4 (AI-Native). */
  function Band(score: real): nat {
    if score >= 4.5 then 4 else if score >= 3.5 then 3 else if score >= 2.5 then 2 else if score >= 1.5 then 1 else 0
  }

  function TierWeight(t: Tier): real {
    match t
    case Lead => 1.0
    case Cover => 0.6
    case Light => 0.3
    case Excluded => 0.0
  }

  function TierSum(ivs: seq<Interview>, d: nat): real {
    if ivs == [] then 0.0
    else TierSum(ivs[..|ivs| - 1], d) +
         (var t := ivs[|ivs| - 1].tiers; if t.Some? && d in t.value then TierWeight(t.value[d]) else 0.0)
  }

  /** All or nothing: one interview without tiers leaves the round without weights. */
  function DimensionWeights(ivs: seq<Interview>): Option<map<nat, real>> {
    if ivs == [] || exists iv :: iv in ivs && iv.tiers.None? then None
    else
      var w := map d | 0 <= d < DIMS :: TierSum(ivs, d);
      if exists d :: d in w && w[d] > 0.0 then Some(w) else None
  }

  // ---------- The loops ----------

  method CollectEntries(ivs: seq<Interview>, d: nat, rw: RoleWeight) returns (es: seq<Entry>)
    ensures es == EntriesOf(ivs, d, rw)
  {
    es := [];
    for i := 0 to |ivs|
      invariant es == EntriesOf(ivs[..i], d, rw)
    {
      assert ivs[..i + 1][..i] == ivs[..i];
      if Contributes(ivs[i], d) {
        es := es + [EntryOf(ivs[i], d, rw)];
      }
    }
    assert ivs[..|ivs|] == ivs;
  }

  method MeanOf(es: seq<Entry>) returns (raw: real)
    requires es != []
    ensures raw == Mean(es)
  {
    var tw, wacc, acc := 0.0, 0.0, 0.0;
    for k := 0 to |es|
      invariant tw == Weight(es[..k]) && wacc == Weighted(es[..k]) && acc == Total(es[..k])
    {
      assert es[..k + 1][..k] == es[..k];
      tw, wacc, acc := tw + es[k].weight, wacc + es[k].score * es[k].weight, acc + es[k].score;
    }
    assert es[..|es|] == es;
    raw := if tw > 0.0 then wacc / tw else acc / |es| as real;
  }

  method BlendWeightOf(es: seq<Entry>) returns (w: real)
    ensures w == BlendWeight(es)
  {
    var cw, cacc := 0.0, 0.0;
    for k := 0 to |es|
      invariant cw == CoverageWeight(es[..k]) && cacc == CoverageWeighted(es[..k])
    {
      assert es[..k + 1][..k] == es[..k];
      if es[k].cov.Some? {
        cw, cacc := cw + es[k].weight, cacc + es[k].cov.value * es[k].weight;
      }
    }
    assert es[..|es|] == es;
    w := Clamp01(if cw > 0.0 then cacc / cw else DEFAULT_COVERAGE_WEIGHT);
  }

  /** One dimension: measured by its entries, or carried from the prior round, or absent. */
  method ScoreDimension(ivs: seq<Interview>, prior: Scores, refresh: bool, rw: RoleWeight, d: nat)
    returns (score: Option<real>, measured: bool)
    ensures score == DimScore(ivs, prior, refresh, rw, d)
    ensures measured <==> exists iv :: iv in ivs && Contributes(iv, d)
    ensures !measured ==> score == At(prior, d)
    ensures measured ==> score.Some?
  {
    var es := CollectEntries(ivs, d, rw);
    EntriesNonempty(ivs, d, rw);
    measured := es != [];
    if !measured {
      score := At(prior, d);
    } else {
      var raw := MeanOf(es);
      if refresh && d in prior {
        var w2 := BlendWeightOf(es);
        score := Some(Round1(Blend(prior[d], raw, w2)));
      } else {
        score := Some(Round1(raw));
      }
    }
  }

  /** The scores of a round, and which of its dimensions were measured rather than carried. */
  method ComputeRoundScores(ivs: seq<Interview>, prior: Scores, refresh: bool, rw: RoleWeight)
    returns (scores: Scores, carried: set<nat>, measured: set<nat>)
    ensures scores == RoundScores(ivs, prior, refresh, rw)
    ensures carried !! measured && carried + measured == scores.Keys
    ensures forall d :: d in carried ==> d in prior && scores[d] == prior[d]
    ensures forall d :: d in measured <==> 0 <= d < DIMS && exists iv :: iv in ivs && Contributes(iv, d)
  {
    scores, carried, measured := map[], {}, {};
    for d := 0 to DIMS
      invariant forall x :: x in scores <==> 0 <= x < d && DimScore(ivs, prior, refresh, rw, x).Some?
      invariant forall x :: x in scores ==> scores[x] == DimScore(ivs, prior, refresh, rw, x).value
      invariant carried !! measured && carried + measured == scores.Keys
      invariant forall x :: x in carried ==> x in prior && scores[x] == prior[x]
      invariant forall x :: x in measured <==> 0 <= x < d && exists iv :: iv in ivs && Contributes(iv, x)
    {
      var score, m := ScoreDimension(ivs, prior, refresh, rw, d);
      if score.Some? {
        scores := scores[d := score.value];
        if m { measured := measured + {d}; } else { carried := carried + {d}; }
      }
    }
  }

  lemma {:induction false} EntriesNonempty(ivs: seq<Interview>, d: nat, rw: RoleWeight)
    ensures EntriesOf(ivs, d, rw) != [] <==> exists iv :: iv in ivs && Contributes(iv, d)
  {
    if ivs != [] {
      EntriesNonempty(ivs[..|ivs| - 1], d, rw);
      assert ivs == ivs[..|ivs| - 1] + [ivs[|ivs| - 1]];
      if Contributes(ivs[|ivs| - 1], d) {
        assert ivs[|ivs| - 1] in ivs;
      }
    }
  }

  method OverallOf(scores: Scores, weights: Option<map<nat, real>>) returns (r: Option<real>)
    ensures r == Overall(scores, weights)
  {
    var acc, sum := 0.0, 0.0;
    for i := 0 to DIMS
      invariant acc == OverallSum(scores, weights, i) && sum == OverallWeight(scores, weights, i)
    {
      if Counted(scores, weights, i) {
        acc, sum := acc + scores[i] * DimWeight(weights, i), sum + DimWeight(weights, i);
      }
    }
    r := if sum > 0.0 then Some(Round1(acc / sum)) else None;
  }
}
