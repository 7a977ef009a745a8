/**
 What the parts of a findings report mean: which words count, when two statements make one claim, who a
 finding is attributed to, which cluster it joins, and which findings are heard at all.
 */
module FindingsMeaning {
  import opened Attributions
  import opened Options
  import opened Findings

  // ---------- Words ----------

  /** The token of a word that counts: the word, without the `s` of a plural. */
  ghost predicate TokenOf(w: string, x: string) {
    && |w| >= 3 && w !in STOPWORDS
    && if exists y :: IsPlural(w, y) then IsPlural(w, x) else x == w
  }

  /** `w` is `y` and an `s`, where `y` has three letters at least and does not end in `s` itself. */
  predicate IsPlural(w: string, y: string) {
    |y| >= 3 && y[|y| - 1] != 's' && w == y + "s"
  }

  lemma StemIsTheToken(w: string, x: string)
    requires |w| >= 3 && w !in STOPWORDS
    ensures TokenOf(w, x) <==> x == Stem(w)
  {
    if |w| > 3 && w[|w| - 1] == 's' && w[|w| - 2] != 's' {
      assert IsPlural(w, w[..|w| - 1]) by { assert w == w[..|w| - 1] + "s"; }
      if IsPlural(w, x) { assert x == w[..|w| - 1]; }
    }
  }

  /** The tokens of a text are those of its words that count, each once. */
  lemma {:induction false} TokensExactly(words: seq<string>, x: string)
    ensures x in TokensOf(words) <==> exists i :: 0 <= i < |words| && TokenOf(words[i], x)
  {
    if words != [] {
      var init, w := words[..|words| - 1], words[|words| - 1];
      TokensExactly(init, x);
      if |w| >= 3 && w !in STOPWORDS { StemIsTheToken(w, x); }
      assert forall i | 0 <= i < |init| :: init[i] == words[i];
      assert TokenOf(w, x) ==> words[|words| - 1] == w;
      if i :| 0 <= i < |words| && TokenOf(words[i], x) {
        assert i < |init| ==> TokenOf(init[i], x);
      }
      if i :| 0 <= i < |init| && TokenOf(init[i], x) {
        assert TokenOf(words[i], x);
      }
    }
  }

  // ---------- Claims ----------

  lemma {:induction false} ElementsCount(a: seq<string>)
    requires Distinct(a)
    ensures |Elements(a)| == |a|
  {
    if a != [] {
      var init, x := a[..|a| - 1], a[|a| - 1];
      ElementsCount(init);
      assert Elements(a) == Elements(init) + {x} && x !in Elements(init);
    }
  }

  /**
   Two statements make the same claim exactly if they have the same words, or share two words at least and at least
   half the words of the shorter one. In what order the words come does not matter.
   */
  lemma SameClaimExactly(a: seq<string>, b: seq<string>)
    requires Distinct(a) && Distinct(b)
    ensures var x, y := Elements(a), Elements(b);
            SameClaim(a, b) <==>
              && x != {} && y != {}
              && (x == y || (|x * y| >= 2 && 2 * |x * y| >= if |x| < |y| then |x| else |y|))
  {
    SharedIsCommon(a, b);
    ElementsCount(a);
    ElementsCount(b);
    var x, y := Elements(a), Elements(b);
    assert a != [] ==> a[0] in x;
    assert b != [] ==> b[0] in y;
    if a != [] && b != [] {
      Halves(|x * y|, Shorter(a, b));
      if x == y {
        assert x * y == x;
        if |a| == 1 { assert a[0] in y && a == b; }
      }
    }
  }

  lemma Halves(n: nat, m: nat)
    requires m > 0
    ensures n as real / m as real >= 0.5 <==> 2 * n >= m
  {
    var q := n as real / m as real;
    assert q * m as real == n as real;
    if q >= 0.5 {
      assert (q - 0.5) * m as real >= 0.0;
    } else {
      assert (0.5 - q) * m as real > 0.0;
    }
  }

  // ---------- Attribution ----------

  /** A role is named with the person exactly where somebody else is named in it too. */
  lemma LabelNamesWhereItMust(fs: seq<Finding>, f: Finding)
    requires f in fs && f.role != ""
    ensures LabelFor(fs, f) ==
            if f.person != "" && exists g :: g in fs && g.role == f.role && g.person != "" && g.person != f.person
            then f.role + " (" + f.person + ")" else f.role
  {
    var people := PeopleIn(fs, f.role);
    if f.person != "" {
      assert f.person in people;
      if g :| g in fs && g.role == f.role && g.person != "" && g.person != f.person {
        assert g.person in people;
        SubsetSize({f.person, g.person}, people);
      } else {
        assert people == {f.person};
      }
    }
  }

  // ---------- Placing ----------

  /** The score of a cluster is that of its closest entry among those that make the same claim. */
  lemma {:induction false} ScoreIsClosest(tokens: seq<string>, cl: Cluster)
    ensures forall j | 0 <= j < |cl| && SameClaim(tokens, cl[j].tokens) :: ClaimSimilarity(tokens, cl[j].tokens) <= Score(tokens, cl)
    ensures Score(tokens, cl) == 0.0 ||
            exists j :: 0 <= j < |cl| && SameClaim(tokens, cl[j].tokens) && ClaimSimilarity(tokens, cl[j].tokens) == Score(tokens, cl)
  {
    if cl != [] {
      var init, l := cl[..|cl| - 1], |cl| - 1;
      ScoreIsClosest(tokens, init);
      assert forall j | 0 <= j < l :: init[j] == cl[j];
      if Score(tokens, cl) == Score(tokens, init) {
        if Score(tokens, init) != 0.0 {
          var j :| 0 <= j < |init| && SameClaim(tokens, init[j].tokens) && ClaimSimilarity(tokens, init[j].tokens) == Score(tokens, init);
          assert cl[j] == init[j];
        }
      } else {
        assert cl[l].tokens == cl[|cl| - 1].tokens;
      }
    }
  }

  lemma {:induction false} BestIsFirst(tokens: seq<string>, cls: seq<Cluster>, c: nat)
    requires Best(tokens, cls).Some? && c < Best(tokens, cls).value
    ensures Score(tokens, cls[c]) < Score(tokens, cls[Best(tokens, cls).value])
  {
    var init := cls[..|cls| - 1];
    if Best(tokens, init) == Best(tokens, cls) {
      BestIsFirst(tokens, init, c);
    } else {
      assert Score(tokens, init[c]) <= if Best(tokens, init).Some? then Score(tokens, init[Best(tokens, init).value]) else 0.0;
    }
  }

  /** Near enough to join: the entry makes the same claim, and is so similar. */
  ghost predicate Near(e: Entry, cl: Cluster, similarity: real) {
    exists j :: 0 <= j < |cl| && SameClaim(e.tokens, cl[j].tokens) && ClaimSimilarity(e.tokens, cl[j].tokens) >= similarity
  }

  lemma NearIsScore(e: Entry, cl: Cluster, similarity: real)
    requires similarity > 0.0
    ensures Near(e, cl, similarity) <==> Score(e.tokens, cl) >= similarity
  {
    ScoreIsClosest(e.tokens, cl);
  }

  /**
   A finding joins the cluster of the entry closest to it, of several as close the first: no other cluster has a
   closer one, and none before it one as close.
   */
  lemma JoinsTheClosest(cls: seq<Cluster>, e: Entry, b: nat)
    requires b < |cls| && Place(cls, e) == cls[b := cls[b] + [e]]
    ensures var s := Score(e.tokens, cls[b]);
            && s > 0.0 && Near(e, cls[b], s)
            && (forall c, t: real | 0 <= c < |cls| && Near(e, cls[c], t) :: t <= s)
            && (forall c | 0 <= c < b :: !Near(e, cls[c], s))
  {
    var best, s := Best(e.tokens, cls), Score(e.tokens, cls[b]);
    assert |cls[b := cls[b] + [e]]| == |cls|;
    assert Place(cls, e)[b] == cls[b] + [e] != cls[b];
    assert best == Some(b);
    NearIsScore(e, cls[b], s);
    forall c, t: real | 0 <= c < |cls| && Near(e, cls[c], t) ensures t <= s {
      if t > 0.0 { NearIsScore(e, cls[c], t); }
    }
    forall c | 0 <= c < b ensures !Near(e, cls[c], s) {
      NearIsScore(e, cls[c], s);
      BestIsFirst(e.tokens, cls, c);
    }
  }

  // ---------- Who is heard ----------

  /** It has a dimension, a text, a role, and a word that counts. */
  ghost predicate Heard(f: Finding) {
    f.dimension != "" && f.text != "" && f.role != "" && exists i, x :: 0 <= i < |f.words| && TokenOf(f.words[i], x)
  }

  lemma AcceptedIsHeard(f: Finding)
    ensures Accepted(f) <==> Heard(f)
  {
    if TokensOf(f.words) != [] {
      TokensExactly(f.words, TokensOf(f.words)[0]);
    }
    if i, x :| 0 <= i < |f.words| && TokenOf(f.words[i], x) {
      TokensExactly(f.words, x);
    }
  }

  lemma {:induction false} EntriesAreHeard(all: seq<Finding>, fs: seq<Finding>, dim: string, e: Entry)
    ensures e in EntriesIn(all, fs, dim) <==> exists i :: 0 <= i < |fs| && Heard(fs[i]) && fs[i].dimension == dim && e == EntryOf(all, fs[i])
  {
    if fs != [] {
      var init, l := fs[..|fs| - 1], |fs| - 1;
      EntriesAreHeard(all, init, dim, e);
      AcceptedIsHeard(fs[l]);
      assert forall i | 0 <= i < l :: init[i] == fs[i];
      if i :| 0 <= i < |init| && Heard(init[i]) && init[i].dimension == dim && e == EntryOf(all, init[i]) {
        assert fs[i] == init[i];
      }
    }
  }

  /** What is in a dimension's clusters is what was heard on it: every finding with a text, a role and a word that counts, and nothing else. */
  lemma ClustersHoldTheHeard(all: seq<Finding>, fs: seq<Finding>, dim: string, e: Entry)
    ensures e in Flat(ClustersOf(Gather(all, fs), dim)) <==>
            exists i :: 0 <= i < |fs| && Heard(fs[i]) && fs[i].dimension == dim && e == EntryOf(all, fs[i])
  {
    GatherIsSound(all, fs, dim);
    EntriesAreHeard(all, fs, dim, e);
    assert e in multiset(Flat(ClustersOf(Gather(all, fs), dim))) <==> e in multiset(EntriesIn(all, fs, dim));
  }
}
