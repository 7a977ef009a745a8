/**
 The loops over the shared keys other than the engagement index: the code index, the roadmap index
 and the roadmap's partitions, filtered for a caller, merged into the server's, or renamed; and the
 rename of the engagement index.
 */
module ClientIndexLoops {
  import opened ClientNames
  import opened ClientScope
  import opened ClientRename
  import opened Options

  function Lookup<K, V>(m: map<K, V>, k: K): Option<V> {
    if k in m then Some(m[k]) else None
  }

  lemma SameLookups<K, V>(a: map<K, V>, b: map<K, V>)
    requires forall k :: Lookup(a, k) == Lookup(b, k)
    ensures a == b
  {
    forall k
      ensures k in a <==> k in b
      ensures k in a ==> a[k] == b[k]
    {
      assert Lookup(a, k) == Lookup(b, k);
    }
  }

  lemma OverNothing<K, V>(m: map<K, V>)
    ensures map[] + m == m && m + map[] == m
  {
  }

  const ALL_FAMILIES: seq<RoadmapFamily> := [Assumptions, Dependencies, Generated, ByEng]

  function PlaceOf(f: RoadmapFamily): (i: nat)
    ensures i < |ALL_FAMILIES| && ALL_FAMILIES[i] == f
  {
    match f
    case Assumptions => 0
    case Dependencies => 1
    case Generated => 2
    case ByEng => 3
  }

  lemma FamiliesAreAll(f: RoadmapFamily, i: nat)
    requires i < |ALL_FAMILIES|
    ensures f in FAMILIES && (ALL_FAMILIES[i] == f <==> PlaceOf(f) == i)
  {
  }

  // ---------- Filter and merge ----------

  predicate CodePasses(ci: map<string, string>, c: string, allowed: set<string>, m: Maps, keep: bool) {
    c in ci && HasSome(allowed, CodeEntryOwner(m, c, ci[c])) == keep
  }

  predicate MetaPasses(ri: map<string, Meta>, c: string, allowed: set<string>, m: Maps, keep: bool) {
    c in ri && HasSome(allowed, MetaOwner(m, c, ri[c])) == keep
  }

  /** The entries of the code index that pass, over what is there. */
  method AddCodes(start: map<string, string>, ci: map<string, string>, allowed: set<string>, m: Maps, keep: bool)
    returns (out: map<string, string>)
    ensures out == start + FilterCodeIndex(ci, allowed, m, keep)
  {
    out := start;
    var todo := ci.Keys;
    while todo != {}
      invariant todo <= ci.Keys
      invariant forall c :: Lookup(out, c) == if c !in todo && CodePasses(ci, c, allowed, m, keep) then Some(ci[c]) else Lookup(start, c)
      decreases |todo|
    {
      var c :| c in todo;
      if CodePasses(ci, c, allowed, m, keep) {
        out := out[c := ci[c]];
      }
      todo := todo - {c};
    }
    SameLookups(out, start + FilterCodeIndex(ci, allowed, m, keep));
  }

  /** The entries of the roadmap index that pass; an entry that is there already stays. */
  method AddMissingMeta(start: map<string, Meta>, ri: map<string, Meta>, allowed: set<string>, m: Maps, keep: bool)
    returns (out: map<string, Meta>)
    ensures out == FilterRoadmapIndex(ri, allowed, m, keep) + start
  {
    out := start;
    var todo := ri.Keys;
    while todo != {}
      invariant todo <= ri.Keys
      invariant forall c :: Lookup(out, c) ==
                  if c !in start && c !in todo && MetaPasses(ri, c, allowed, m, keep) then Some(ri[c]) else Lookup(start, c)
      decreases |todo|
    {
      var c :| c in todo;
      if c !in start && MetaPasses(ri, c, allowed, m, keep) {
        out := out[c := ri[c]];
      }
      todo := todo - {c};
    }
    SameLookups(out, FilterRoadmapIndex(ri, allowed, m, keep) + start);
  }

  method AddPartition(start: map<EngKey, string>, p: map<EngKey, string>, allowed: set<string>, m: Maps, keep: bool)
    returns (out: map<EngKey, string>)
    ensures out == start + FilterPartition(p, allowed, m, keep)
  {
    out := start;
    var todo := p.Keys;
    while todo != {}
      invariant todo <= p.Keys
      invariant forall ek :: Lookup(out, ek) ==
                  if ek in p && ek !in todo && EngAllowed(ek, allowed, m) == keep then Some(p[ek]) else Lookup(start, ek)
      decreases |todo|
    {
      var ek :| ek in todo;
      if EngAllowed(ek, allowed, m) == keep {
        out := out[ek := p[ek]];
      }
      todo := todo - {ek};
    }
    SameLookups(out, start + FilterPartition(p, allowed, m, keep));
  }

  method FilterRoadmapState(r: Roadmap, allowed: set<string>, m: Maps) returns (out: Roadmap)
    ensures out == FilterRoadmap(r, allowed, m)
  {
    var fams: map<RoadmapFamily, map<EngKey, string>> := map[];
    for i := 0 to |ALL_FAMILIES|
      invariant forall f :: Lookup(fams, f) == if PlaceOf(f) < i then Some(FilterPartition(Partition(r, f), allowed, m, true)) else None
    {
      var kept := AddPartition(map[], Partition(r, ALL_FAMILIES[i]), allowed, m, true);
      OverNothing(FilterPartition(Partition(r, ALL_FAMILIES[i]), allowed, m, true));
      fams := fams[ALL_FAMILIES[i] := kept];
      forall f ensures ALL_FAMILIES[i] == f <==> PlaceOf(f) == i { FamiliesAreAll(f, i); }
    }
    forall f ensures f in FAMILIES { FamiliesAreAll(f, 0); }
    out := Roadmap(fams, r.savedAt, map[]);
    SameLookups(fams, FilterRoadmap(r, allowed, m).fams);
  }

  method MergeRoadmapState(cur: Roadmap, inc: Roadmap, allowed: set<string>, m: Maps) returns (out: Roadmap)
    ensures out == MergeRoadmap(cur, inc, allowed, m)
  {
    var fams: map<RoadmapFamily, map<EngKey, string>> := map[];
    for i := 0 to |ALL_FAMILIES|
      invariant forall f :: Lookup(fams, f) ==
                  if PlaceOf(f) < i then Some(MergePartition(Partition(cur, f), Partition(inc, f), allowed, m)) else None
    {
      var merged := AddPartition(map[], Partition(cur, ALL_FAMILIES[i]), allowed, m, false);
      OverNothing(FilterPartition(Partition(cur, ALL_FAMILIES[i]), allowed, m, false));
      merged := AddPartition(merged, Partition(inc, ALL_FAMILIES[i]), allowed, m, true);
      fams := fams[ALL_FAMILIES[i] := merged];
      forall f ensures ALL_FAMILIES[i] == f <==> PlaceOf(f) == i { FamiliesAreAll(f, i); }
    }
    forall f ensures f in FAMILIES { FamiliesAreAll(f, 0); }
    out := Roadmap(fams, if inc.savedAt.Some? then inc.savedAt else cur.savedAt, cur.flat);
    SameLookups(fams, MergeRoadmap(cur, inc, allowed, m).fams);
  }

  // ---------- Rename ----------

  lemma {:induction false} BindAfter(es: seq<Entry>, i: nat, n: string, c: string)
    requires i <= |es| && forall k | 0 <= k < i :: es[k].norm != n
    ensures Bind(es, n, c) == es[..i] + Bind(es[i..], n, c)
  {
    if i > 0 {
      BindAfter(es[1..], i - 1, n, c);
      assert es[1..][i - 1..] == es[i..];
      assert es[..i] == [es[0]] + es[1..][..i - 1];
    } else {
      assert es[0..] == es;
    }
  }

  /** Take the entry of `n` over in its place, or add one at the end. */
  method BindEntry(es: seq<Entry>, n: string, c: string) returns (out: seq<Entry>)
    ensures out == Bind(es, n, c)
  {
    var i := 0;
    while i < |es| && es[i].norm != n
      invariant 0 <= i <= |es| && forall k | 0 <= k < i :: es[k].norm != n
    {
      i := i + 1;
    }
    BindAfter(es, i, n, c);
    out := if i < |es| then es[..i] + [Entry(n, c)] + es[i + 1..] else es + [Entry(n, c)];
  }

  /** Every entry of ours but the new norm's goes; then the new norm takes the code. */
  method RenameIndex(es: seq<Entry>, j: Job) returns (out: seq<Entry>)
    ensures out == NewIndex(es, j)
  {
    out := [];
    var any := false;
    for i := 0 to |es|
      invariant out == DropOurs(es[..i], j)
      invariant any <==> exists e :: e in es[..i] && EntryOurs(e, j)
    {
      assert es[..i + 1] == es[..i] + [es[i]];
      if EntryOurs(es[i], j) { any := true; }
      if !(EntryOurs(es[i], j) && es[i].norm != j.NewNorm()) { out := out + [es[i]]; }
    }
    assert es[..|es|] == es;
    if j.code.Some? && any { out := BindEntry(out, j.NewNorm(), j.code.value); }
  }

  method RenameRoadmapIndex(ri: map<string, Meta>, j: Job) returns (out: map<string, Meta>)
    ensures out == NewRoadmapIndex(ri, j)
  {
    out := ri;
    var todo := ri.Keys;
    while todo != {}
      invariant todo <= ri.Keys
      invariant out == map c | c in ri :: if c in todo then ri[c] else NewMeta(c, ri[c], j)
      decreases |todo|
    {
      var c :| c in todo;
      var name := ri[c].clientName;
      if j.code == Some(c) || (name.Some? && Norm(name.value) in j.norms) {
        out := out[c := ri[c].(clientName := Some(j.newName))];
      }
      todo := todo - {c};
    }
  }

  /** The first of the owned partitions takes the new name, and all of them go from their old ones. */
  method RenamePartition(p: map<EngKey, string>, j: Job) returns (out: map<EngKey, string>)
    ensures out == NewPartition(p, j)
  {
    var owned := PartitionRivals(p, j);
    if owned == {} { return p; }
    var first := if j.preferred in owned then j.preferred else Least(owned);
    out := p[EngClient(j.NewNorm()) := p[EngClient(first)]];
    var todo := owned;
    while todo != {}
      invariant todo <= owned
      invariant out == (p - set n | n in owned && n !in todo :: EngClient(n))[EngClient(j.NewNorm()) := p[EngClient(first)]]
      decreases |todo|
    {
      var n :| n in todo;
      out := out - {EngClient(n)};
      todo := todo - {n};
    }
  }

  method RenameRoadmap(r: Roadmap, j: Job) returns (out: Roadmap)
    ensures out == NewRoadmap(r, j)
  {
    var fams := r.fams;
    for i := 0 to |ALL_FAMILIES|
      invariant forall f :: Lookup(fams, f) == if PlaceOf(f) < i && f in r.fams then Some(NewPartition(r.fams[f], j)) else Lookup(r.fams, f)
    {
      var f := ALL_FAMILIES[i];
      FamiliesAreAll(f, i);
      assert Lookup(fams, f) == Lookup(r.fams, f);
      if f in fams {
        var renamed := RenamePartition(fams[f], j);
        fams := fams[f := renamed];
      }
      forall g ensures ALL_FAMILIES[i] == g <==> PlaceOf(g) == i { FamiliesAreAll(g, i); }
    }
    out := r.(fams := fams);
    SameLookups(fams, NewRoadmap(r, j).fams);
  }
}
