/**
 Corroborated findings: when two statements make the same claim, how findings are gathered into
 clusters, who a finding is attributed to, and which clusters count as corroborated.
 */
module Findings {
  import opened Attributions
  import opened Options

  // ---------- Tokens ----------

  const STOPWORDS: set<string> :=
    {"the", "a", "an", "and", "or", "but", "of", "to", "in", "on", "for", "with",
     "is", "are", "was", "were", "be", "been", "being", "it", "its", "this",
     "that", "these", "those", "there", "their", "they", "we", "our", "us",
     "as", "at", "by", "from", "has", "have", "had", "do", "does", "did",
     "will", "would", "can", "could", "should", "may", "might", "than", "then",
     "so", "if", "into", "about", "over", "very", "much", "more", "most"}

  /** Drop a plural's last letter. */
  function Stem(w: string): string {
    if |w| > 3 && w[|w| - 1] == 's' && w[|w| - 2] != 's' then w[..|w| - 1] else w
  }

  /** The distinct content words, stemmed, in order of first use. */
  function TokensOf(words: seq<string>): (r: seq<string>)
    ensures Distinct(r)
  {
    if words == [] then []
    else
      var before, w := TokensOf(words[..|words| - 1]), words[|words| - 1];
      if |w| < 3 || w in STOPWORDS || Stem(w) in before then before else before + [Stem(w)]
  }

  predicate Distinct(s: seq<string>) {
    forall i, j {:trigger s[i], s[j]} | 0 <= i < j < |s| :: s[i] != s[j]
  }

  // ---------- Claims ----------

  /** How many of the tokens of `a` are in `b`. */
  function Shared(a: seq<string>, b: seq<string>): nat {
    if a == [] then 0 else Shared(a[..|a| - 1], b) + if a[|a| - 1] in b then 1 else 0
  }

  function Shorter(a: seq<string>, b: seq<string>): nat {
    if |a| < |b| then |a| else |b|
  }

  function ClaimSimilarity(a: seq<string>, b: seq<string>): real {
    if a == [] || b == [] then 0.0 else Shared(a, b) as real / Shorter(a, b) as real
  }

  const SIMILARITY_THRESHOLD: real := 0.5
  const MIN_SHARED_TOKENS: nat := 2

  predicate SameClaim(a: seq<string>, b: seq<string>) {
    a != [] && b != [] &&
    (a == b || (Shared(a, b) >= MIN_SHARED_TOKENS && Shared(a, b) as real / Shorter(a, b) as real >= SIMILARITY_THRESHOLD))
  }

  function Elements(s: seq<string>): set<string> {
    set x | x in s
  }

  lemma {:induction false} SharedIsCommon(a: seq<string>, b: seq<string>)
    requires Distinct(a)
    ensures Shared(a, b) == |Elements(a) * Elements(b)|
  {
    if a == [] {
      assert Elements(a) * Elements(b) == {};
    } else {
      var init, x := a[..|a| - 1], a[|a| - 1];
      SharedIsCommon(init, b);
      assert a == init + [x] && x !in init;
      CommonGrows(init, x, b);
    }
  }

  lemma CommonGrows(a: seq<string>, x: string, b: seq<string>)
    requires x !in a
    ensures |Elements(a + [x]) * Elements(b)| == |Elements(a) * Elements(b)| + if x in b then 1 else 0
  {
    assert Elements(a + [x]) == Elements(a) + {x};
    assert Elements(a + [x]) * Elements(b) == if x in b then Elements(a) * Elements(b) + {x} else Elements(a) * Elements(b);
  }

  /** Neither depends on which statement comes first. */
  lemma ClaimsAreSymmetric(a: seq<string>, b: seq<string>)
    requires Distinct(a) && Distinct(b)
    ensures ClaimSimilarity(a, b) == ClaimSimilarity(b, a)
    ensures SameClaim(a, b) <==> SameClaim(b, a)
  {
    SharedIsCommon(a, b);
    SharedIsCommon(b, a);
    assert Elements(a) * Elements(b) == Elements(b) * Elements(a);
  }

  /** On lists with repeats they do: the token that is repeated counts twice on one side only. */
  lemma RepeatsBreakSymmetry()
    ensures SameClaim(["data", "data"], ["data", "cost"]) && !SameClaim(["data", "cost"], ["data", "data"])
  {
    var a, b := ["data", "data"], ["data", "cost"];
    assert a[..1] == ["data"] && b[..1] == ["data"];
    assert a[..1][..0] == [] && b[..1][..0] == [];
    assert a[1] == "data" && b[1] == "cost" && "cost"[0] != "data"[0];
    assert b[1] !in a;
    assert Shared(a[..1], b) == 1 && Shared(b[..1], a) == 1;
    assert Shared(a, b) == 2 && Shared(b, a) == 1;
    assert a != b;
  }

  /** The same claim is never a claim with nothing in common. */
  lemma SameIsSimilar(a: seq<string>, b: seq<string>)
    requires SameClaim(a, b)
    ensures ClaimSimilarity(a, b) > 0.0
  {
    if a == b { AllShared(a, b); }
  }

  lemma {:induction false} AllShared(a: seq<string>, b: seq<string>)
    requires forall x | x in a :: x in b
    ensures Shared(a, b) == |a|
  {
    if a != [] { AllShared(a[..|a| - 1], b); }
  }

  // ---------- Attribution ----------

  /** Texts are trimmed; an absent one is empty. `words` are the words of `text`. */
  datatype Finding = Finding(dimension: string, text: string, words: seq<string>, role: string, person: string)

  /** The people named in a role, anywhere in the engagement. */
  function PeopleIn(fs: seq<Finding>, role: string): set<string> {
    set f | f in fs && f.role == role && f.role != "" && f.person != "" :: f.person
  }

  function LabelFor(fs: seq<Finding>, f: Finding): string {
    Attribution(f.role, f.person, PeopleIn(fs, f.role))
  }

  /** Two people of one role are told apart, and one person is never two. */
  lemma LabelsTellPeopleApart(fs: seq<Finding>, f: Finding, g: Finding)
    requires f in fs && g in fs && f.role == g.role != "" && f.person != "" && g.person != ""
    ensures LabelFor(fs, f) == LabelFor(fs, g) <==> f.person == g.person
  {
    var people := PeopleIn(fs, f.role);
    assert f.person in people && g.person in people;
    if f.person != g.person {
      assert {f.person, g.person} <= people;
      SubsetSize({f.person, g.person}, people);
      var left := f.role + " (";
      Wrapped(left, f.person, g.person, ")");
      assert LabelFor(fs, f) == left + f.person + ")" && LabelFor(fs, g) == left + g.person + ")";
    }
  }

  lemma Wrapped(left: string, x: string, y: string, right: string)
    ensures left + x + right == left + y + right ==> x == y
  {
    assert x == (left + x + right)[|left|..|left| + |x|];
    assert y == (left + y + right)[|left|..|left| + |y|];
    assert |left + x + right| == |left| + |x| + |right| && |left + y + right| == |left| + |y| + |right|;
  }

  lemma SubsetSize<T>(a: set<T>, b: set<T>)
    requires a <= b
    ensures |a| <= |b|
  {
    assert b == a + (b - a);
  }

  // ---------- Clusters ----------

  datatype Entry = Entry(text: string, role: string, attribution: string, tokens: seq<string>)

  type Cluster = seq<Entry>

  /** The best similarity to an entry that makes the same claim. */
  function Score(tokens: seq<string>, cl: Cluster): real {
    if cl == [] then 0.0
    else
      var before, e := Score(tokens, cl[..|cl| - 1]), cl[|cl| - 1];
      if SameClaim(tokens, e.tokens) && ClaimSimilarity(tokens, e.tokens) > before then ClaimSimilarity(tokens, e.tokens) else before
  }

  /** The first cluster with the highest score, if any scores. */
  function Best(tokens: seq<string>, cls: seq<Cluster>): (r: Option<nat>)
    ensures r.Some? ==> r.value < |cls| && Score(tokens, cls[r.value]) > 0.0
    ensures forall c | 0 <= c < |cls| :: Score(tokens, cls[c]) <= if r.Some? then Score(tokens, cls[r.value]) else 0.0
  {
    if cls == [] then None
    else
      var before, c := Best(tokens, cls[..|cls| - 1]), |cls| - 1;
      if Score(tokens, cls[c]) > (if before.Some? then Score(tokens, cls[before.value]) else 0.0) then Some(c) else before
  }

  function Place(cls: seq<Cluster>, e: Entry): seq<Cluster> {
    var best := Best(e.tokens, cls);
    if best.None? then cls + [[e]] else cls[best.value := cls[best.value] + [e]]
  }

  /** The entry makes the same claim as one before it. */
  predicate Linked(cl: Cluster, k: nat)
    requires k < |cl|
  {
    exists j :: 0 <= j < k && SameClaim(cl[k].tokens, cl[j].tokens)
  }

  /** Every entry but the first is linked to one before it, so any two are linked through others. */
  predicate Connected(cl: Cluster) {
    cl != [] && forall k | 1 <= k < |cl| :: Linked(cl, k)
  }

  lemma {:induction false} ScoringIsSame(tokens: seq<string>, cl: Cluster)
    ensures Score(tokens, cl) > 0.0 <==> exists j :: 0 <= j < |cl| && SameClaim(tokens, cl[j].tokens)
    ensures Score(tokens, cl) >= 0.0
  {
    if cl != [] {
      var init, last := cl[..|cl| - 1], |cl| - 1;
      ScoringIsSame(tokens, init);
      if SameClaim(tokens, cl[last].tokens) { SameIsSimilar(tokens, cl[last].tokens); }
      if j :| 0 <= j < |cl| && SameClaim(tokens, cl[j].tokens) {
        if j < last { assert init[j] == cl[j]; }
      }
      if Score(tokens, init) > 0.0 {
        var j :| 0 <= j < |init| && SameClaim(tokens, init[j].tokens);
        assert cl[j] == init[j];
      }
    }
  }

  lemma AddingConnects(cl: Cluster, e: Entry)
    requires Connected(cl) && Score(e.tokens, cl) > 0.0
    ensures Connected(cl + [e])
  {
    ScoringIsSame(e.tokens, cl);
    var n := cl + [e];
    var j :| 0 <= j < |cl| && SameClaim(e.tokens, cl[j].tokens);
    assert n[j] == cl[j];
    forall k | 1 <= k < |n|
      ensures Linked(n, k)
    {
      if k < |cl| {
        assert Linked(cl, k);
        var i :| 0 <= i < k && SameClaim(cl[k].tokens, cl[i].tokens);
        assert n[i] == cl[i] && n[k] == cl[k];
      }
    }
  }

  predicate AllConnected(cls: seq<Cluster>) {
    forall c | 0 <= c < |cls| :: Connected(cls[c])
  }

  lemma PlacingConnects(cls: seq<Cluster>, e: Entry)
    requires AllConnected(cls)
    ensures AllConnected(Place(cls, e))
  {
    var best := Best(e.tokens, cls);
    if best.Some? { AddingConnects(cls[best.value], e); }
  }

  /** A finding opens a cluster of its own exactly when no finding before it, in any cluster, makes the same claim. */
  lemma OpensOnlyWhenNew(cls: seq<Cluster>, e: Entry)
    ensures |Place(cls, e)| == |cls| + 1 <==>
            forall c | 0 <= c < |cls| :: forall j | 0 <= j < |cls[c]| :: !SameClaim(e.tokens, cls[c][j].tokens)
  {
    forall c | 0 <= c < |cls|
      ensures Score(e.tokens, cls[c]) > 0.0 <==> exists j :: 0 <= j < |cls[c]| && SameClaim(e.tokens, cls[c][j].tokens)
    {
      ScoringIsSame(e.tokens, cls[c]);
    }
  }

  function Flat(cls: seq<Cluster>): seq<Entry> {
    if cls == [] then [] else Flat(cls[..|cls| - 1]) + cls[|cls| - 1]
  }

  lemma {:induction false} FlatGrows(cls: seq<Cluster>, i: nat, e: Entry)
    requires i < |cls|
    ensures multiset(Flat(cls[i := cls[i] + [e]])) == multiset(Flat(cls)) + multiset{e}
  {
    var n := cls[i := cls[i] + [e]];
    var last := |cls| - 1;
    assert Flat(n) == Flat(n[..last]) + n[last] && Flat(cls) == Flat(cls[..last]) + cls[last];
    if i == last {
      assert n[..last] == cls[..last];
    } else {
      assert n[..last] == cls[..last][i := cls[..last][i] + [e]];
      FlatGrows(cls[..last], i, e);
    }
  }

  /** Placing adds the entry once and takes nothing away. */
  lemma PlacingConserves(cls: seq<Cluster>, e: Entry)
    ensures multiset(Flat(Place(cls, e))) == multiset(Flat(cls)) + multiset{e}
  {
    var best := Best(e.tokens, cls);
    if best.None? {
      assert (cls + [[e]])[..|cls|] == cls;
    } else {
      FlatGrows(cls, best.value, e);
    }
  }

  // ---------- All findings ----------

  /** A finding that can corroborate: it has a dimension, words and someone it is attributed to. */
  predicate Accepted(f: Finding) {
    f.dimension != "" && f.text != "" && f.role != "" && TokensOf(f.words) != []
  }

  function EntryOf(all: seq<Finding>, f: Finding): Entry {
    Entry(f.text, f.role, LabelFor(all, f), TokensOf(f.words))
  }

  /** The dimensions in order of first use, and each one's clusters. */
  datatype Groups = Groups(order: seq<string>, byDim: map<string, seq<Cluster>>)

  function ClustersOf(g: Groups, dim: string): seq<Cluster> {
    if dim in g.byDim then g.byDim[dim] else []
  }

  function AddFinding(all: seq<Finding>, g: Groups, f: Finding): Groups {
    if !Accepted(f) then g
    else Groups(if f.dimension in g.byDim then g.order else g.order + [f.dimension],
                g.byDim[f.dimension := Place(ClustersOf(g, f.dimension), EntryOf(all, f))])
  }

  function Gather(all: seq<Finding>, fs: seq<Finding>): Groups {
    if fs == [] then Groups([], map[]) else AddFinding(all, Gather(all, fs[..|fs| - 1]), fs[|fs| - 1])
  }

  /** The entries the accepted findings of a dimension make. */
  function EntriesIn(all: seq<Finding>, fs: seq<Finding>, dim: string): seq<Entry> {
    if fs == [] then []
    else EntriesIn(all, fs[..|fs| - 1], dim) +
         if Accepted(fs[|fs| - 1]) && fs[|fs| - 1].dimension == dim then [EntryOf(all, fs[|fs| - 1])] else []
  }

  /** The listed dimensions are those that have clusters, each once. */
  ghost predicate Listed(g: Groups) {
    Distinct(g.order) && forall d :: d in g.byDim <==> d in g.order
  }

  /**
   Every accepted finding is in exactly one cluster, of its own dimension; and every cluster hangs
   together by the same claim.
   */
  lemma {:induction false} GatherIsSound(all: seq<Finding>, fs: seq<Finding>, dim: string)
    ensures multiset(Flat(ClustersOf(Gather(all, fs), dim))) == multiset(EntriesIn(all, fs, dim))
    ensures AllConnected(ClustersOf(Gather(all, fs), dim))
    ensures Listed(Gather(all, fs))
  {
    if fs != [] {
      var init, f := fs[..|fs| - 1], fs[|fs| - 1];
      GatherIsSound(all, init, dim);
      AddingIsSound(all, Gather(all, init), f, dim);
    }
  }

  lemma AddingIsSound(all: seq<Finding>, g: Groups, f: Finding, dim: string)
    requires AllConnected(ClustersOf(g, dim)) && Listed(g)
    ensures var n := AddFinding(all, g, f);
            && AllConnected(ClustersOf(n, dim)) && Listed(n)
            && multiset(Flat(ClustersOf(n, dim))) == multiset(Flat(ClustersOf(g, dim))) +
                 multiset(if Accepted(f) && f.dimension == dim then [EntryOf(all, f)] else [])
  {
    if Accepted(f) {
      ListedGrows(g, AddFinding(all, g, f), f.dimension);
      if f.dimension == dim {
        PlacingConserves(ClustersOf(g, dim), EntryOf(all, f));
        PlacingConnects(ClustersOf(g, dim), EntryOf(all, f));
      }
    }
  }

  lemma ListedGrows(g: Groups, n: Groups, dim: string)
    requires Listed(g) && n.byDim.Keys == g.byDim.Keys + {dim} && n.order == if dim in g.byDim then g.order else g.order + [dim]
    ensures Listed(n)
  {
    forall d
      ensures d in n.byDim <==> d in n.order
    {
    }
  }

  // ---------- Corroboration ----------

  function Labels(cl: Cluster): set<string> {
    set e | e in cl :: e.attribution
  }

  predicate Corroborated(cl: Cluster) {
    |Labels(cl)| >= 2
  }

  /** Corroborated means: two entries are attributed differently. */
  lemma CorroboratedByTwo(cl: Cluster)
    ensures Corroborated(cl) <==> exists i, j :: 0 <= i < |cl| && 0 <= j < |cl| && cl[i].attribution != cl[j].attribution
  {
    if Corroborated(cl) {
      var x :| x in Labels(cl);
      var rest := Labels(cl) - {x};
      assert |rest| >= 1;
      var y :| y in rest;
      var a :| a in cl && a.attribution == x;
      var b :| b in cl && b.attribution == y;
      var i :| 0 <= i < |cl| && cl[i] == a;
      var j :| 0 <= j < |cl| && cl[j] == b;
      assert cl[i].attribution != cl[j].attribution;
    } else if i, j :| 0 <= i < |cl| && 0 <= j < |cl| && cl[i].attribution != cl[j].attribution {
      assert cl[i] in cl && cl[j] in cl;
      assert {cl[i].attribution, cl[j].attribution} <= Labels(cl);
      SubsetSize({cl[i].attribution, cl[j].attribution}, Labels(cl));
    }
  }

  function Keep(cls: seq<Cluster>, corroborated: bool): seq<Cluster> {
    if cls == [] then []
    else Keep(cls[..|cls| - 1], corroborated) + if Corroborated(cls[|cls| - 1]) == corroborated then [cls[|cls| - 1]] else []
  }

  function LabelsOfAll(cls: seq<Cluster>): set<string> {
    set cl, e | cl in cls && e in cl :: e.attribution
  }

  datatype Theme = Theme(dimension: string, clusters: seq<Cluster>)

  datatype Report = Report(corroborated: seq<Cluster>, thematic: seq<Theme>, single: seq<Cluster>)

  /** A dimension whose uncorroborated clusters come from two sources is thematic. */
  function AddDimension(r: Report, dim: string, cls: seq<Cluster>): Report {
    var rest := Keep(cls, false);
    if |LabelsOfAll(rest)| >= 2 then Report(r.corroborated + Keep(cls, true), r.thematic + [Theme(dim, rest)], r.single)
    else Report(r.corroborated + Keep(cls, true), r.thematic, r.single + rest)
  }

  function ReportOf(g: Groups, order: seq<string>): Report {
    if order == [] then Report([], [], [])
    else AddDimension(ReportOf(g, order[..|order| - 1]), order[|order| - 1], ClustersOf(g, order[|order| - 1]))
  }

  function InThemes(ts: seq<Theme>): seq<Cluster> {
    if ts == [] then [] else InThemes(ts[..|ts| - 1]) + ts[|ts| - 1].clusters
  }

  function AllClusters(g: Groups, order: seq<string>): seq<Cluster> {
    if order == [] then [] else AllClusters(g, order[..|order| - 1]) + ClustersOf(g, order[|order| - 1])
  }

  lemma KeepOne(init: seq<Cluster>, last: Cluster, corroborated: bool)
    ensures multiset(Keep(init + [last], corroborated)) ==
            multiset(Keep(init, corroborated)) + if Corroborated(last) == corroborated then multiset{last} else multiset{}
  {
    assert (init + [last])[..|init|] == init;
  }

  lemma {:induction false} KeepParts(cls: seq<Cluster>)
    ensures multiset(Keep(cls, true)) + multiset(Keep(cls, false)) == multiset(cls)
  {
    if cls != [] {
      var init, last := cls[..|cls| - 1], cls[|cls| - 1];
      assert cls == init + [last];
      KeepParts(init);
      KeepOne(init, last, true);
      KeepOne(init, last, false);
    }
  }

  lemma {:induction false} KeepIsRight(cls: seq<Cluster>, corroborated: bool)
    ensures forall cl | cl in Keep(cls, corroborated) :: Corroborated(cl) == corroborated
  {
    if cls != [] { KeepIsRight(cls[..|cls| - 1], corroborated); }
  }

  /** The report holds each of these clusters once, under "corroborated" exactly when it is; a theme has two sources. */
  ghost predicate Reports(r: Report, cls: multiset<Cluster>) {
    && multiset(r.corroborated) + multiset(InThemes(r.thematic)) + multiset(r.single) == cls
    && (forall cl | cl in r.corroborated :: Corroborated(cl))
    && (forall cl | cl in InThemes(r.thematic) + r.single :: !Corroborated(cl))
    && (forall th | th in r.thematic :: |LabelsOfAll(th.clusters)| >= 2)
  }

  lemma InThemesAppend(ts: seq<Theme>, th: Theme)
    ensures InThemes(ts + [th]) == InThemes(ts) + th.clusters
  {
    assert (ts + [th])[..|ts|] == ts;
  }

  lemma AddDimensionReports(r: Report, all: multiset<Cluster>, dim: string, cls: seq<Cluster>)
    requires Reports(r, all)
    ensures Reports(AddDimension(r, dim, cls), all + multiset(cls))
  {
    KeepParts(cls);
    KeepIsRight(cls, true);
    KeepIsRight(cls, false);
    InThemesAppend(r.thematic, Theme(dim, Keep(cls, false)));
  }

  /** Each cluster is reported exactly once, and under "corroborated" exactly when it is. */
  lemma {:induction false} EachReportedOnce(g: Groups, order: seq<string>)
    ensures Reports(ReportOf(g, order), multiset(AllClusters(g, order)))
  {
    if order != [] {
      var init, dim := order[..|order| - 1], order[|order| - 1];
      EachReportedOnce(g, init);
      AddDimensionReports(ReportOf(g, init), multiset(AllClusters(g, init)), dim, ClustersOf(g, dim));
    }
  }

  /**
   Of what is not corroborated, a dimension's clusters are a theme exactly if two sources speak of them, and are
   listed one by one if not; no other dimension adds to its theme.
   */
  lemma {:induction false} ThematicExactly(g: Groups, order: seq<string>, dim: string)
    requires dim in order
    ensures var r, rest := ReportOf(g, order), Keep(ClustersOf(g, dim), false);
            && (forall th | th in r.thematic && th.dimension == dim :: th.clusters == rest)
            && ((exists th :: th in r.thematic && th.dimension == dim) <==>
                exists a, b :: a != b && SpeaksOf(rest, a) && SpeaksOf(rest, b))
            && ((forall th | th in r.thematic :: th.dimension != dim) ==> forall cl | cl in rest :: cl in r.single)
  {
    var init, last := order[..|order| - 1], order[|order| - 1];
    assert order == init + [last];
    TwoSources(Keep(ClustersOf(g, dim), false));
    if dim in init {
      ThematicExactly(g, init, dim);
    } else {
      ThemesAreListed(g, init);
    }
  }

  lemma {:induction false} ThemesAreListed(g: Groups, order: seq<string>)
    ensures forall th | th in ReportOf(g, order).thematic :: th.dimension in order
  {
    if order != [] {
      ThemesAreListed(g, order[..|order| - 1]);
      assert order == order[..|order| - 1] + [order[|order| - 1]];
    }
  }

  ghost predicate SpeaksOf(cls: seq<Cluster>, who: string) {
    exists cl, e :: cl in cls && e in cl && e.attribution == who
  }

  lemma LabelsSpeak(cls: seq<Cluster>, who: string)
    ensures who in LabelsOfAll(cls) <==> SpeaksOf(cls, who)
  {
  }

  lemma TwoSources(cls: seq<Cluster>)
    ensures |LabelsOfAll(cls)| >= 2 <==> exists a, b :: a != b && SpeaksOf(cls, a) && SpeaksOf(cls, b)
  {
    var ls := LabelsOfAll(cls);
    if a, b :| a != b && SpeaksOf(cls, a) && SpeaksOf(cls, b) {
      LabelsSpeak(cls, a);
      LabelsSpeak(cls, b);
      SubsetSize({a, b}, ls);
    }
    if |ls| >= 2 {
      var a :| a in ls;
      assert |ls - {a}| >= 1;
      var b :| b in ls - {a};
      LabelsSpeak(cls, a);
      LabelsSpeak(cls, b);
    }
  }
}
