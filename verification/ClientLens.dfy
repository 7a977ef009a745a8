/**
 The read filter and the write merge as a lens: writing back what was read changes nothing,
 and reading what was read gives the same again.
 */
module ClientLens {
  import opened ClientNames
  import opened ClientScope
  import opened Options

  function AsSet(es: seq<Entry>): set<Entry> {
    set e | e in es
  }

  lemma {:induction false} EntryForUnique(es: seq<Entry>, e: Entry)
    requires DistinctNorms(es) && e in es
    ensures EntryFor(es, e.norm) == Some(e.code)
  {
    if es[|es| - 1] != e {
      assert es == es[..|es| - 1] + [es[|es| - 1]];
      assert e in es[..|es| - 1];
      EntryForUnique(es[..|es| - 1], e);
    }
  }

  /** Every entry the caller was shown comes back as it is, whether its binding is accepted or refused. */
  lemma {:induction false} AcceptOwn(es: seq<Entry>, w: Workspace, sets: Workspace, t: Trusted, allowed: set<string>)
    requires DistinctNorms(Entries(w))
    requires forall e :: e in es ==> e in Entries(w) && Has(allowed, e.norm)
    ensures AcceptEntries(es, w, sets, t, allowed) == es
  {
    if es != [] {
      var last := es[|es| - 1];
      assert es == es[..|es| - 1] + [last];
      AcceptOwn(es[..|es| - 1], w, sets, t, allowed);
      EntryForUnique(Entries(w), last);
    }
  }

  lemma {:induction false} FilteredOwner(es: seq<Entry>, allowed: set<string>, c: string)
    requires LastIndexed(es, c).Some? && Has(allowed, LastIndexed(es, c).value)
    ensures LastIndexed(FilterEntries(es, allowed, true), c) == LastIndexed(es, c)
  {
    var last := es[|es| - 1];
    var init := es[..|es| - 1];
    if last.code == c {
      assert FilterEntries(es, allowed, true) == FilterEntries(init, allowed, true) + [last];
    } else {
      FilteredOwner(init, allowed, c);
      var f := FilterEntries(init, allowed, true);
      if Has(allowed, last.norm) {
        assert (f + [last])[..|f|] == f;
      } else {
        assert f + [] == f;
      }
    }
  }

  /** Nothing the caller was shown names an owner that the server's own maps do not have. */
  lemma ShownMapsAreKnown(w: Workspace, allowed: set<string>, t: Trusted)
    ensures forall c :: c in BuildMaps(Filter(w, allowed, t), map[]).codes ==> c in BuildMaps(w, t).codes
    ensures forall s :: s in BuildMaps(Filter(w, allowed, t), map[]).sessions ==> s in BuildMaps(w, t).sessions
  {
    var f := Filter(w, allowed, t);
    MapsAreOwners(w, t);
    MapsAreOwners(f, map[]);
    forall c | c in BuildMaps(f, map[]).codes ensures c in BuildMaps(w, t).codes {
      assert Get(BuildMaps(f, map[]).codes, c) == CodeOwner(f, map[], c);
      LastIndexedNamed(Entries(f), c);
      LastIndexedNamed(Entries(w), c);
      FilterMembers(Entries(w), allowed, true);
      assert Get(BuildMaps(w, t).codes, c) == CodeOwner(w, t, c);
    }
    forall s | s in BuildMaps(f, map[]).sessions ensures s in BuildMaps(w, t).sessions {
      assert Get(BuildMaps(f, map[]).sessions, s) == SessionClient(f.keys, s);
      assert Get(BuildMaps(w, t).sessions, s) == SessionClient(w.keys, s);
    }
  }

  lemma WriteBackMaps(w: Workspace, allowed: set<string>, t: Trusted)
    ensures ScopeMaps(w, Filter(w, allowed, t), t) == BuildMaps(w, t)
  {
    ShownMapsAreKnown(w, allowed, t);
    KnownMapsAddNothing(BuildMaps(w, t), BuildMaps(Filter(w, allowed, t), map[]));
  }

  lemma KnownMapsAddNothing(m: Maps, incoming: Maps)
    requires incoming.codes.Keys <= m.codes.Keys && incoming.sessions.Keys <= m.sessions.Keys
    ensures Extend(m, incoming) == m
  {
  }

  /** The roadmap with each missing family present and empty. */
  function Filled(r: Roadmap): Roadmap {
    r.(fams := map f | f in FAMILIES :: Partition(r, f))
  }

  lemma WriteBackPartition(p: map<EngKey, string>, allowed: set<string>, m: Maps)
    ensures MergePartition(p, FilterPartition(p, allowed, m, true), allowed, m) == p
  {
    assert FilterPartition(FilterPartition(p, allowed, m, true), allowed, m, true) == FilterPartition(p, allowed, m, true);
  }

  lemma WriteBackRoadmap(r: Roadmap, allowed: set<string>, m: Maps)
    ensures MergeRoadmap(r, FilterRoadmap(r, allowed, m), allowed, m) == Filled(r)
  {
    var merged := MergeRoadmap(r, FilterRoadmap(r, allowed, m), allowed, m);
    forall f | f in FAMILIES
      ensures merged.fams[f] == Partition(r, f)
    {
      assert Partition(FilterRoadmap(r, allowed, m), f) == FilterPartition(Partition(r, f), allowed, m, true);
      WriteBackPartition(Partition(r, f), allowed, m);
    }
    assert merged.fams == Filled(r).fams;
  }

  lemma WriteBackCodeIndex(ci: map<string, string>, allowed: set<string>, m: Maps)
    ensures FilterCodeIndex(ci, allowed, m, false) + FilterCodeIndex(FilterCodeIndex(ci, allowed, m, true), allowed, m, true) == ci
  {
    assert FilterCodeIndex(FilterCodeIndex(ci, allowed, m, true), allowed, m, true) == FilterCodeIndex(ci, allowed, m, true);
  }

  lemma WriteBackRoadmapIndex(ri: map<string, Meta>, allowed: set<string>, m: Maps)
    ensures FilterRoadmapIndex(FilterRoadmapIndex(ri, allowed, m, true), allowed, m, true) + FilterRoadmapIndex(ri, allowed, m, false) == ri
  {
    assert FilterRoadmapIndex(FilterRoadmapIndex(ri, allowed, m, true), allowed, m, true) == FilterRoadmapIndex(ri, allowed, m, true);
  }

  function WriteBack(w: Workspace, allowed: set<string>, t: Trusted): Workspace {
    Step(w, Change(Filter(w, allowed, t), {}), allowed, t)
  }

  lemma WriteBackKeys(w: Workspace, allowed: set<string>, t: Trusted)
    ensures WriteBack(w, allowed, t).keys == w.keys
  {
    var f := Filter(w, allowed, t);
    var m := BuildMaps(w, t);
    WriteBackMaps(w, allowed, t);
    var c := ScopeWrite(Change(f, {}), w, allowed, t);
    assert c.sets.keys == FilterKeys(FilterKeys(w.keys, allowed, m), allowed, m);
    assert w.keys + c.sets.keys == w.keys;
    assert c.deletes == {};
  }

  lemma WriteBackIndexes(w: Workspace, allowed: set<string>, t: Trusted)
    ensures var w' := WriteBack(w, allowed, t); w'.codeIndex == w.codeIndex && w'.roadmapIndex == w.roadmapIndex
  {
    var m := BuildMaps(w, t);
    WriteBackMaps(w, allowed, t);
    WriteBackCodeIndex(OrEmpty(w.codeIndex), allowed, m);
    WriteBackRoadmapIndex(OrEmpty(w.roadmapIndex), allowed, m);
  }

  lemma WriteBackEntries(w: Workspace, allowed: set<string>, t: Trusted)
    requires DistinctNorms(Entries(w))
    ensures var w' := WriteBack(w, allowed, t);
            && (w'.index.None? <==> w.index.None?)
            && Entries(w') == FilterEntries(Entries(w), allowed, false) + FilterEntries(Entries(w), allowed, true)
  {
    var f := Filter(w, allowed, t);
    FilterMembers(Entries(w), allowed, true);
    if w.index.Some? {
      AcceptOwn(Entries(f), w, f, t, allowed);
    }
  }

  /**
   Get-put. A caller who writes back exactly what was read leaves every key, both code-keyed
   indexes and the roadmap as they were, up to roadmap families that were absent. The engagement
   index keeps its entries; the entries of other clients now come first.
   */
  lemma WriteBackIsIdentity(w: Workspace, allowed: set<string>, t: Trusted)
    requires DistinctNorms(Entries(w))
    ensures var w' := WriteBack(w, allowed, t);
            && w'.keys == w.keys
            && w'.codeIndex == w.codeIndex
            && w'.roadmapIndex == w.roadmapIndex
            && w'.roadmap == (if w.roadmap.Some? then Some(Filled(w.roadmap.value)) else None)
            && (w'.index.None? <==> w.index.None?)
            && AsSet(Entries(w')) == AsSet(Entries(w))
  {
    WriteBackKeys(w, allowed, t);
    WriteBackIndexes(w, allowed, t);
    WriteBackEntries(w, allowed, t);
    FilterMembers(Entries(w), allowed, true);
    FilterMembers(Entries(w), allowed, false);
    assert WriteBack(w, allowed, t).roadmap == (if w.roadmap.Some? then Some(Filled(w.roadmap.value)) else None) by {
      WriteBackMaps(w, allowed, t);
      WriteBackRoadmap(RoadmapOf(w), allowed, BuildMaps(w, t));
    }
  }

  /** The roadmap too is exactly as it was when, and only when, no family of it was absent. */
  lemma WriteBackIsExact(w: Workspace, allowed: set<string>, t: Trusted)
    requires DistinctNorms(Entries(w))
    ensures WriteBack(w, allowed, t).roadmap == w.roadmap <==> (w.roadmap.Some? ==> FAMILIES <= w.roadmap.value.fams.Keys)
  {
    WriteBackIsIdentity(w, allowed, t);
    if w.roadmap.Some? {
      var r := w.roadmap.value;
      if FAMILIES <= r.fams.Keys {
        forall f | f in r.fams ensures f in FAMILIES {
          assert f == Assumptions || f == Dependencies || f == Generated || f == ByEng;
        }
        assert Filled(r).fams == r.fams;
      } else {
        assert Filled(r).fams.Keys == FAMILIES;
      }
    }
  }

  // ---------- Who owns a code after a write-back ----------

  lemma {:induction false} LastIndexedConcat(a: seq<Entry>, b: seq<Entry>, c: string)
    ensures LastIndexed(a + b, c) == OrElse(LastIndexed(b, c), LastIndexed(a, c))
  {
    if b == [] {
      assert a + b == a;
    } else {
      assert (a + b)[..|a + b| - 1] == a + b[..|b| - 1];
      LastIndexedConcat(a, b[..|b| - 1], c);
    }
  }

  lemma {:induction false} LastOfFiltered(es: seq<Entry>, allowed: set<string>, keep: bool, c: string)
    ensures LastIndexed(es, c).Some? && Has(allowed, LastIndexed(es, c).value) == keep ==>
              LastIndexed(FilterEntries(es, allowed, keep), c) == LastIndexed(es, c)
    ensures LastIndexed(FilterEntries(es, allowed, keep), c).Some? ==>
              Has(allowed, LastIndexed(FilterEntries(es, allowed, keep), c).value) == keep
  {
    if es != [] {
      var last, init := es[|es| - 1], es[..|es| - 1];
      LastOfFiltered(init, allowed, keep, c);
      var kept := if Has(allowed, last.norm) == keep then [last] else [];
      LastIndexedConcat(FilterEntries(init, allowed, keep), kept, c);
    }
  }

  /** The index gives `c` last to another client and also, earlier, to one of the caller's. */
  predicate Contested(w: Workspace, allowed: set<string>, t: Trusted, c: string) {
    && c !in t
    && RecordClient(w.keys, c).None?
    && LastIndexed(Entries(w), c).Some?
    && !Has(allowed, LastIndexed(Entries(w), c).value)
    && exists e :: e in Entries(w) && e.code == c && Has(allowed, e.norm)
  }

  /** A write-back keeps the owner of a code exactly when the index does not give the code to both sides. */
  lemma WriteBackKeepsOwner(w: Workspace, allowed: set<string>, t: Trusted, c: string)
    requires DistinctNorms(Entries(w))
    ensures CodeOwner(WriteBack(w, allowed, t), t, c) == CodeOwner(w, t, c) <==> !Contested(w, allowed, t, c)
  {
    var es := Entries(w);
    var kept, rest := FilterEntries(es, allowed, true), FilterEntries(es, allowed, false);
    WriteBackKeys(w, allowed, t);
    WriteBackEntries(w, allowed, t);
    LastIndexedConcat(rest, kept, c);
    LastOfFiltered(es, allowed, true, c);
    LastOfFiltered(es, allowed, false, c);
    LastIndexedNamed(es, c);
    LastIndexedNamed(kept, c);
    LastIndexedNamed(rest, c);
    FilterMembers(es, allowed, true);
    FilterMembers(es, allowed, false);
  }

  /** Two norms for one code, neither a row nor a record: a write-back by the first moves the code to it. */
  lemma ContestedCodeMoves()
    ensures exists w, allowed, c :: DistinctNorms(Entries(w)) && CodeOwner(WriteBack(w, allowed, map[]), map[], c) != CodeOwner(w, map[], c)
  {
    var a, b := Entry("acme", "X-1"), Entry("beta", "X-1");
    var w := Workspace(Some([a, b]), None, None, None, map[]);
    assert Entries(w)[..1] == [a];
    assert LastIndexed(Entries(w), "X-1") == Some("beta");
    assert a in Entries(w);
    assert Contested(w, {"acme"}, map[], "X-1");
    WriteBackKeepsOwner(w, {"acme"}, map[], "X-1");
  }

  // ---------- Reading what was read ----------

  /** A code whose owner is allowed keeps it in the filtered workspace, one nobody owns stays so, and no other owner comes up. */
  lemma FilterKeepsOwners(w: Workspace, allowed: set<string>, t: Trusted, c: string)
    ensures HasSome(allowed, CodeOwner(w, t, c)) ==> CodeOwner(Filter(w, allowed, t), t, c) == CodeOwner(w, t, c)
    ensures CodeOwner(w, t, c).None? ==> CodeOwner(Filter(w, allowed, t), t, c).None?
    ensures var o := CodeOwner(Filter(w, allowed, t), t, c); o == CodeOwner(w, t, c) || o.None? || HasSome(allowed, o)
  {
    var f := Filter(w, allowed, t);
    LastOfFiltered(Entries(w), allowed, true, c);
    LastIndexedNamed(Entries(w), c);
    LastIndexedNamed(Entries(f), c);
    FilterMembers(Entries(w), allowed, true);
    if c !in t && RecordClient(w.keys, c).Some? && HasSome(allowed, CodeOwner(w, t, c)) {
      OwnRecordIsShown(w, allowed, t, c);
    }
  }

  lemma OwnRecordIsShown(w: Workspace, allowed: set<string>, t: Trusted, c: string)
    requires RecordKey(c) in w.keys && HasSome(allowed, CodeOwner(w, t, c))
    ensures var f := Filter(w, allowed, t); RecordKey(c) in f.keys && f.keys[RecordKey(c)] == w.keys[RecordKey(c)]
  {
    var m := BuildMaps(w, t);
    MapsAreOwners(w, t);
    assert Get(m.codes, c) == CodeOwner(w, t, c);
    assert Visible(Resolve(RecordKey(c), Some(w.keys[RecordKey(c)]), m), allowed);
  }

  lemma FilterKeepsSessions(w: Workspace, allowed: set<string>, t: Trusted, s: string)
    ensures HasSome(allowed, SessionClient(w.keys, s)) ==> SessionClient(Filter(w, allowed, t).keys, s) == SessionClient(w.keys, s)
  {
    var f := Filter(w, allowed, t);
    var m := BuildMaps(w, t);
    MapsAreOwners(w, t);
    if HasSome(allowed, SessionClient(w.keys, s)) {
      assert Get(m.sessions, s) == SessionClient(w.keys, s);
      assert Visible(Resolve(Session(s), Some(w.keys[Session(s)]), m), allowed);
    }
  }

  /** The two pairs of maps agree on everything an allowed owner decides. */
  ghost predicate Agree(m: Maps, m': Maps, allowed: set<string>) {
    && (forall c :: HasSome(allowed, Get(m.codes, c)) ==> Get(m'.codes, c) == Get(m.codes, c))
    && (forall c :: Get(m.codes, c).None? ==> Get(m'.codes, c).None?)
    && (forall c :: Get(m'.codes, c) == Get(m.codes, c) || Get(m'.codes, c).None? || HasSome(allowed, Get(m'.codes, c)))
    && (forall s :: HasSome(allowed, Get(m.sessions, s)) ==> Get(m'.sessions, s) == Get(m.sessions, s))
  }

  lemma FilteredMapsAgree(w: Workspace, allowed: set<string>, t: Trusted)
    ensures Agree(BuildMaps(w, t), BuildMaps(Filter(w, allowed, t), t), allowed)
  {
    var f := Filter(w, allowed, t);
    MapsAreOwners(w, t);
    MapsAreOwners(f, t);
    var m, m' := BuildMaps(w, t), BuildMaps(f, t);
    forall c
      ensures HasSome(allowed, Get(m.codes, c)) ==> Get(m'.codes, c) == Get(m.codes, c)
      ensures Get(m.codes, c).None? ==> Get(m'.codes, c).None?
      ensures Get(m'.codes, c) == Get(m.codes, c) || Get(m'.codes, c).None? || HasSome(allowed, Get(m'.codes, c))
    {
      FilterKeepsOwners(w, allowed, t, c);
    }
    forall s ensures HasSome(allowed, Get(m.sessions, s)) ==> Get(m'.sessions, s) == Get(m.sessions, s) {
      FilterKeepsSessions(w, allowed, t, s);
    }
  }

  /** The key's segment is a code that an index entry gives to nobody in particular. */
  predicate BoundToAll(k: Key, m: Maps) {
    ReadAsCode(k) && Get(m.codes, CodeText(k.seg.id)) == Some(GLOBAL)
  }

  lemma VisibleStays(k: Key, v: Value, m: Maps, m': Maps, allowed: set<string>)
    requires Agree(m, m', allowed) && !BoundToAll(k, m)
    ensures Visible(Resolve(k, Some(v), m), allowed) ==> Visible(Resolve(k, Some(v), m'), allowed)
  {
    if ReadAsCode(k) {
      var c := CodeText(k.seg.id);
      assert Get(m'.codes, c) == Get(m.codes, c) || Get(m'.codes, c).None? || HasSome(allowed, Get(m'.codes, c));
      assert Get(m.codes, c).None? ==> Get(m'.codes, c).None?;
      assert HasSome(allowed, Get(m.codes, c)) ==> Get(m'.codes, c) == Get(m.codes, c);
    }
    if k.Session? && Visible(Resolve(k, Some(v), m), allowed) {
      assert HasSome(allowed, Get(m.sessions, k.id));
      assert Get(m'.sessions, k.id) == Get(m.sessions, k.id);
    }
  }

  lemma {:induction false} FilterEntriesTwice(es: seq<Entry>, allowed: set<string>)
    ensures FilterEntries(FilterEntries(es, allowed, true), allowed, true) == FilterEntries(es, allowed, true)
  {
    if es != [] {
      var last, init := es[|es| - 1], es[..|es| - 1];
      FilterEntriesTwice(init, allowed);
      var f := FilterEntries(init, allowed, true);
      if Has(allowed, last.norm) {
        assert (f + [last])[..|f|] == f;
      } else {
        assert f + [] == f;
      }
    }
  }

  lemma FilterIndexesTwice(ci: map<string, string>, ri: map<string, Meta>, m: Maps, m': Maps, allowed: set<string>)
    requires Agree(m, m', allowed)
    ensures FilterCodeIndex(FilterCodeIndex(ci, allowed, m, true), allowed, m', true) == FilterCodeIndex(ci, allowed, m, true)
    ensures FilterRoadmapIndex(FilterRoadmapIndex(ri, allowed, m, true), allowed, m', true) == FilterRoadmapIndex(ri, allowed, m, true)
  {
    forall c | c in ci && HasSome(allowed, CodeEntryOwner(m, c, ci[c]))
      ensures HasSome(allowed, CodeEntryOwner(m', c, ci[c]))
    {
      assert Get(m'.codes, c) == Get(m.codes, c);
    }
    forall c | c in ri && HasSome(allowed, MetaOwner(m, c, ri[c]))
      ensures HasSome(allowed, MetaOwner(m', c, ri[c]))
    {
      assert Get(m'.codes, c) == Get(m.codes, c);
    }
  }

  lemma FilterRoadmapTwice(r: Roadmap, m: Maps, m': Maps, allowed: set<string>)
    requires Agree(m, m', allowed)
    ensures FilterRoadmap(FilterRoadmap(r, allowed, m), allowed, m') == FilterRoadmap(r, allowed, m)
  {
    var once := FilterRoadmap(r, allowed, m);
    forall f | f in FAMILIES ensures FilterPartition(Partition(once, f), allowed, m', true) == Partition(once, f) {
      forall ek | ek in Partition(once, f) ensures EngAllowed(ek, allowed, m') {
        assert EngAllowed(ek, allowed, m);
      }
    }
    assert FilterRoadmap(once, allowed, m').fams == once.fams;
  }

  lemma FilterKeysTwice(keys: map<Key, Value>, m: Maps, m': Maps, allowed: set<string>)
    requires Agree(m, m', allowed)
    ensures FilterKeys(FilterKeys(keys, allowed, m), allowed, m') == FilterKeys(keys, allowed, m) <==>
            forall k :: k in FilterKeys(keys, allowed, m) && BoundToAll(k, m) ==> Visible(Resolve(k, Some(keys[k]), m'), allowed)
  {
    var once := FilterKeys(keys, allowed, m);
    forall k | k in once && !BoundToAll(k, m) ensures Visible(Resolve(k, Some(keys[k]), m'), allowed) {
      VisibleStays(k, keys[k], m, m', allowed);
    }
    var twice := FilterKeys(once, allowed, m');
    assert forall k :: k in twice <==> k in once && Visible(Resolve(k, Some(keys[k]), m'), allowed);
  }

  /**
   The one way in which the filter forgets: the key is shown because its code is bound to everybody, the entry
   that binds it is not shown, no entry that is shown binds the code, and its segment is not a norm that is allowed.
   */
  predicate Forgotten(w: Workspace, allowed: set<string>, t: Trusted, k: Key) {
    && k in w.keys && BoundToAll(k, BuildMaps(w, t))
    && LastIndexed(FilterEntries(Entries(w), allowed, true), CodeText(k.seg.id)).None?
    && !Visible(Named(IdText(k.seg.id)), allowed)
  }

  lemma BoundToAllIsIndexed(w: Workspace, allowed: set<string>, t: Trusted, k: Key)
    requires k in w.keys && BoundToAll(k, BuildMaps(w, t))
    ensures Visible(Resolve(k, Some(w.keys[k]), BuildMaps(Filter(w, allowed, t), t)), allowed) <==> !Forgotten(w, allowed, t, k)
    ensures k in Filter(w, allowed, t).keys
  {
    var c, f := CodeText(k.seg.id), Filter(w, allowed, t);
    var m, m' := BuildMaps(w, t), BuildMaps(f, t);
    MapsAreOwners(w, t);
    MapsAreOwners(f, t);
    assert Get(m.codes, c) == CodeOwner(w, t, c) && Get(m'.codes, c) == CodeOwner(f, t, c);
    NormIsNotGlobal();
    assert CodeOwner(f, t, c) == LastIndexed(Entries(f), c);
    LastOfFiltered(Entries(w), allowed, true, c);
  }

  lemma FilterSharedTwice(w: Workspace, allowed: set<string>, t: Trusted)
    ensures var once := Filter(w, allowed, t);
            Filter(once, allowed, t).(keys := map[]) == once.(keys := map[])
  {
    var m, m' := BuildMaps(w, t), BuildMaps(Filter(w, allowed, t), t);
    FilteredMapsAgree(w, allowed, t);
    FilterEntriesTwice(Entries(w), allowed);
    FilterIndexesTwice(OrEmpty(w.codeIndex), OrEmpty(w.roadmapIndex), m, m', allowed);
    FilterRoadmapTwice(RoadmapOf(w), m, m', allowed);
  }

  /** Filtering is idempotent, although the second pass reads its owners from the filtered workspace, exactly when nothing is forgotten. */
  lemma FilterIsIdempotent(w: Workspace, allowed: set<string>, t: Trusted)
    ensures Filter(Filter(w, allowed, t), allowed, t) == Filter(w, allowed, t) <==> forall k :: !Forgotten(w, allowed, t, k)
  {
    var m, m' := BuildMaps(w, t), BuildMaps(Filter(w, allowed, t), t);
    FilteredMapsAgree(w, allowed, t);
    FilterSharedTwice(w, allowed, t);
    FilterKeysTwice(w.keys, m, m', allowed);
    forall k | k in w.keys && BoundToAll(k, m)
      ensures Visible(Resolve(k, Some(w.keys[k]), m'), allowed) <==> !Forgotten(w, allowed, t, k)
      ensures k in Filter(w, allowed, t).keys
    {
      BoundToAllIsIndexed(w, allowed, t, k);
    }
  }
}
