/**
 The rounds as an engagement stores them: objects that are sorted by reference and rescored in place.
 */
module ScoringCells {
  import opened Scoring
  import opened ScoringRounds
  import opened Options

  class RoundCell {
    const number: Option<real>
    const interviews: seq<Interview>
    var scores: Option<Scores>

    constructor (number: Option<real>, interviews: seq<Interview>, scores: Option<Scores>)
      ensures this.number == number && this.interviews == interviews && this.scores == scores
    {
      this.number, this.interviews, this.scores := number, interviews, scores;
    }

    function Value(): Round
      reads this
    {
      Round(number, interviews, scores)
    }
  }

  ghost predicate DistinctCells(cells: seq<RoundCell>) {
    forall i, j | 0 <= i < j < |cells| :: cells[i] != cells[j]
  }

  /** The cells hold exactly these rounds. */
  ghost predicate Hold(cells: seq<RoundCell>, rounds: seq<Round>)
    reads cells
  {
    |cells| == |rounds| && forall i {:trigger cells[i]} {:trigger rounds[i]} | 0 <= i < |cells| :: cells[i].Value() == rounds[i]
  }

  lemma {:induction false} InsertAt(sorted: seq<Round>, r: Round, j: nat)
    requires j <= |sorted|
    requires forall i | j <= i < |sorted| :: Before(r.number, sorted[i].number)
    requires j > 0 ==> !Before(r.number, sorted[j - 1].number)
    ensures Insert(sorted, r) == sorted[..j] + [r] + sorted[j..]
  {
    if j < |sorted| {
      var init := sorted[..|sorted| - 1];
      InsertAt(init, r, j);
      assert init[..j] == sorted[..j] && init[j..] + [sorted[|sorted| - 1]] == sorted[j..];
    } else {
      assert sorted[..j] == sorted && sorted[j..] == [];
    }
  }

  /** Step back over every cell that comes strictly later, and put the cell there. */
  method InsertCell(sorted: seq<RoundCell>, r: RoundCell, ghost vals: seq<Round>) returns (out: seq<RoundCell>)
    requires Hold(sorted, vals)
    ensures Hold(out, Insert(vals, r.Value()))
    ensures exists j :: 0 <= j <= |sorted| && out == sorted[..j] + [r] + sorted[j..]
  {
    var j := |sorted|;
    while j > 0 && Before(r.number, sorted[j - 1].number)
      invariant 0 <= j <= |sorted|
      invariant forall i | j <= i < |sorted| :: Before(r.number, vals[i].number)
    {
      assert sorted[j - 1].Value() == vals[j - 1];
      j := j - 1;
    }
    if j > 0 { assert sorted[j - 1].Value() == vals[j - 1]; }
    InsertAt(vals, r.Value(), j);
    out := sorted[..j] + [r] + sorted[j..];
  }

  lemma InsertedCells(sorted: seq<RoundCell>, r: RoundCell, j: nat)
    requires DistinctCells(sorted) && r !in sorted && j <= |sorted|
    ensures var out := sorted[..j] + [r] + sorted[j..];
            DistinctCells(out) && forall c :: c in out <==> c in sorted || c == r
  {
    var out := sorted[..j] + [r] + sorted[j..];
    forall c ensures c in out <==> c in sorted || c == r {
      assert sorted == sorted[..j] + sorted[j..];
    }
  }

  method SortCells(cells: seq<RoundCell>, ghost vals: seq<Round>) returns (sorted: seq<RoundCell>)
    requires DistinctCells(cells) && Hold(cells, vals)
    ensures DistinctCells(sorted) && forall c :: c in sorted <==> c in cells
    ensures Hold(sorted, SortRounds(vals))
  {
    sorted := [];
    for n := 0 to |cells|
      invariant DistinctCells(sorted) && forall c :: c in sorted <==> c in cells[..n]
      invariant Hold(sorted, SortRounds(vals[..n]))
    {
      var r := cells[n];
      assert r !in cells[..n];
      assert vals[..n + 1][..n] == vals[..n] && vals[n] == r.Value();
      var out := InsertCell(sorted, r, SortRounds(vals[..n]));
      ghost var j: nat :| j <= |sorted| && out == sorted[..j] + [r] + sorted[j..];
      InsertedCells(sorted, r, j);
      assert cells[..n + 1] == cells[..n] + [r];
      sorted := out;
    }
    assert cells[..|cells|] == cells && vals[..|cells|] == vals;
  }

  /** Round `i` is rescored from `ps[i]` to `want[i]`, and the running scores go on to `ps[i + 1]`. */
  ghost predicate StepOf(vals: seq<Round>, want: seq<Round>, ps: seq<Scores>, i: nat, lo: real, rw: RoleWeight)
    requires i < |vals| == |want| < |ps|
  {
    if vals[i].interviews == [] then want[i] == vals[i] && ps[i + 1] == ps[i]
    else
      var s := RoundScores(vals[i].interviews, ps[i], IsRefreshRound(vals[i], lo), rw);
      want[i] == vals[i].(scores := Some(s)) && ps[i + 1] == ps[i] + s
  }

  lemma StepsOf(vals: seq<Round>, lo: real, rw: RoleWeight)
    ensures var want, ps := Recomputed(vals, lo, rw), Chained(vals, lo, rw);
            |want| == |vals| && |ps| == |vals| + 1 && ps[0] == map[] &&
            forall i {:trigger StepOf(vals, want, ps, i, lo, rw)} | 0 <= i < |vals| :: StepOf(vals, want, ps, i, lo, rw)
  {
    var want, ps := Recomputed(vals, lo, rw), Chained(vals, lo, rw);
    forall i {:trigger StepOf(vals, want, ps, i, lo, rw)} | 0 <= i < |vals| ensures StepOf(vals, want, ps, i, lo, rw) {
      RescoredBy(vals[i], ps[i], lo, rw);
      assert want[i] == Rescored(vals[i], ps[i], lo, rw);
      assert ps[i + 1] == Overlay(ps[i], want[i]) by {
        RunningIsChain(vals, lo, rw);
        assert Linked(vals, ps, i, lo, rw);
      }
    }
  }

  lemma RescoredBy(r: Round, p: Scores, lo: real, rw: RoleWeight)
    ensures var s := RoundScores(r.interviews, p, IsRefreshRound(r, lo), rw);
            var r' := Rescored(r, p, lo, rw);
            if r.interviews == [] then r' == r && Overlay(p, r') == p else r' == r.(scores := Some(s)) && Overlay(p, r') == p + s
  {
  }

  method RescoreInPlace(ordered: seq<RoundCell>, lo: real, rw: RoleWeight, ghost vals: seq<Round>)
    requires DistinctCells(ordered) && Hold(ordered, vals)
    modifies ordered
    ensures Hold(ordered, Recomputed(vals, lo, rw))
  {
    StepsOf(vals, lo, rw);
    RescoreAlong(ordered, lo, rw, vals, Recomputed(vals, lo, rw), Chained(vals, lo, rw));
  }

  /** The loop, given what each round is to become and what is running before it. */
  method RescoreAlong(ordered: seq<RoundCell>, lo: real, rw: RoleWeight, ghost vals: seq<Round>, ghost want: seq<Round>, ghost ps: seq<Scores>)
    requires DistinctCells(ordered) && Hold(ordered, vals)
    requires |want| == |vals| && |ps| == |vals| + 1 && ps[0] == map[]
    requires forall i {:trigger StepOf(vals, want, ps, i, lo, rw)} | 0 <= i < |vals| :: StepOf(vals, want, ps, i, lo, rw)
    modifies ordered
    ensures Hold(ordered, want)
  {
    var running: Scores := map[];
    for i := 0 to |ordered|
      invariant running == ps[i]
      invariant forall k | i <= k < |ordered| :: ordered[k].Value() == vals[k]
      invariant forall k | 0 <= k < i :: ordered[k].Value() == want[k]
    {
      var rd := ordered[i];
      assert rd.Value() == vals[i];
      assert StepOf(vals, want, ps, i, lo, rw);
      if rd.interviews != [] {
        var scores, _, _ := ComputeRoundScores(rd.interviews, running, IsRefreshRound(rd.Value(), lo), rw);
        rd.scores := Some(scores);
        running := running + scores;
      }
    }
  }

  method LowestNumber(cells: seq<RoundCell>, ghost vals: seq<Round>) returns (lo: real)
    requires Hold(cells, vals)
    ensures lo == Lowest(vals)
  {
    var least: Option<real> := None;
    for i := 0 to |cells|
      invariant least == LowestRoundNumber(vals[..i])
    {
      assert vals[..i + 1][..i] == vals[..i] && cells[i].Value() == vals[i];
      var n := cells[i].number;
      if n.Some? && (least.None? || n.value < least.value) {
        least := n;
      }
    }
    assert vals[..|cells|] == vals;
    lo := if least.None? then 1.0 else least.value;
  }

  /** Recompute every round, in numeric order, in place; the stored order of the rounds does not change. */
  method RecomputeAllRounds(cells: seq<RoundCell>, rw: RoleWeight, ghost vals: seq<Round>) returns (ordered: seq<RoundCell>)
    requires DistinctCells(cells) && Hold(cells, vals)
    modifies cells
    ensures forall c :: c in ordered <==> c in cells
    ensures Hold(ordered, RecomputeAll(vals, rw))
  {
    var lo := LowestNumber(cells, vals);
    ordered := SortCells(cells, vals);
    assert forall i | 0 <= i < |ordered| :: ordered[i] in cells;
    RescoreInPlace(ordered, lo, rw, SortRounds(vals));
  }
}
