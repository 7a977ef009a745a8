/** The loops over words, clusters and findings. */
module FindingsLoops {
  import opened Options
  import opened Findings

  method ContentTokens(words: seq<string>) returns (out: seq<string>)
    ensures out == TokensOf(words) && Distinct(out)
  {
    out := [];
    for i := 0 to |words|
      invariant out == TokensOf(words[..i])
    {
      assert words[..i + 1][..i] == words[..i];
      var w := words[i];
      if |w| < 3 { continue; }
      if w in STOPWORDS { continue; }
      var t := if |w| > 3 && w[|w| - 1] == 's' && w[|w| - 2..] != "ss" then w[..|w| - 1] else w;
      assert t == Stem(w);
      if t !in out { out := out + [t]; }
    }
    assert words[..|words|] == words;
  }

  method CountShared(a: seq<string>, b: seq<string>) returns (shared: nat)
    ensures shared == Shared(a, b)
  {
    shared := 0;
    for i := 0 to |a|
      invariant shared == Shared(a[..i], b)
    {
      assert a[..i + 1][..i] == a[..i];
      if a[i] in b { shared := shared + 1; }
    }
    assert a[..|a|] == a;
  }

  method IsSameClaim(a: seq<string>, b: seq<string>) returns (same: bool)
    ensures same == SameClaim(a, b)
  {
    if a == [] || b == [] { return false; }
    if |a| == |b| {
      var z := 0;
      while z < |a| && a[z] == b[z]
        invariant z <= |a| && forall k | 0 <= k < z :: a[k] == b[k]
      {
        z := z + 1;
      }
      if z == |a| { return true; }
      assert a != b;
    }
    var shared := CountShared(a, b);
    if shared < MIN_SHARED_TOKENS { return false; }
    same := shared as real / Shorter(a, b) as real >= SIMILARITY_THRESHOLD;
  }

  method ScoreCluster(tokens: seq<string>, cl: Cluster) returns (s: real)
    ensures s == Score(tokens, cl)
  {
    s := 0.0;
    for e := 0 to |cl|
      invariant s == Score(tokens, cl[..e])
    {
      assert cl[..e + 1][..e] == cl[..e];
      var same := IsSameClaim(tokens, cl[e].tokens);
      if !same { continue; }
      var v := ClaimSimilarity(tokens, cl[e].tokens);
      if v > s { s := v; }
    }
    assert cl[..|cl|] == cl;
  }

  /** The best match, not the first: ties go to the earlier cluster. */
  method BestCluster(tokens: seq<string>, cls: seq<Cluster>) returns (best: Option<nat>)
    ensures best == Best(tokens, cls)
  {
    best := None;
    var bestScore := 0.0;
    for c := 0 to |cls|
      invariant best == Best(tokens, cls[..c])
      invariant bestScore == if best.Some? then Score(tokens, cls[best.value]) else 0.0
    {
      assert cls[..c + 1][..c] == cls[..c];
      var s := ScoreCluster(tokens, cls[c]);
      if s > bestScore {
        bestScore := s;
        best := Some(c);
      }
    }
    assert cls[..|cls|] == cls;
  }

  /** Gather the findings, dimension by dimension. */
  method GatherFindings(list: seq<Finding>) returns (g: Groups)
    ensures g == Gather(list, list)
  {
    g := Groups([], map[]);
    for i := 0 to |list|
      invariant g == Gather(list, list[..i])
    {
      assert list[..i + 1][..i] == list[..i];
      var f := list[i];
      if f.dimension == "" || f.text == "" || f.role == "" { continue; }
      var tokens := ContentTokens(f.words);
      if tokens == [] { continue; }
      var order, byDim := g.order, g.byDim;
      if f.dimension !in byDim {
        byDim := byDim[f.dimension := []];
        order := order + [f.dimension];
      }
      var clusters := byDim[f.dimension];
      var best := BestCluster(tokens, clusters);
      var entry := Entry(f.text, f.role, LabelFor(list, f), tokens);
      if best.Some? {
        clusters := clusters[best.value := clusters[best.value] + [entry]];
      } else {
        clusters := clusters + [[entry]];
      }
      g := Groups(order, byDim[f.dimension := clusters]);
    }
    assert list[..|list|] == list;
  }

  method SplitClusters(cls: seq<Cluster>) returns (conf: seq<Cluster>, rest: seq<Cluster>)
    ensures conf == Keep(cls, true) && rest == Keep(cls, false)
  {
    conf, rest := [], [];
    for i := 0 to |cls|
      invariant conf == Keep(cls[..i], true) && rest == Keep(cls[..i], false)
    {
      assert cls[..i + 1][..i] == cls[..i];
      if |Labels(cls[i])| >= 2 { conf := conf + [cls[i]]; } else { rest := rest + [cls[i]]; }
    }
    assert cls[..|cls|] == cls;
  }

  method CorroborateFindings(list: seq<Finding>) returns (r: Report)
    ensures r == ReportOf(Gather(list, list), Gather(list, list).order)
    ensures Reports(r, multiset(AllClusters(Gather(list, list), Gather(list, list).order)))
  {
    var g := GatherFindings(list);
    r := Report([], [], []);
    for d := 0 to |g.order|
      invariant r == ReportOf(g, g.order[..d])
    {
      assert g.order[..d + 1][..d] == g.order[..d];
      var cls := ClustersOf(g, g.order[d]);
      var conf, rest := SplitClusters(cls);
      if |LabelsOfAll(rest)| >= 2 {
        r := Report(r.corroborated + conf, r.thematic + [Theme(g.order[d], rest)], r.single);
      } else {
        r := Report(r.corroborated + conf, r.thematic, r.single + rest);
      }
    }
    assert g.order[..|g.order|] == g.order;
    EachReportedOnce(g, g.order);
  }
}
