/**
 Deleting one client from the workspace: every key that resolves to the client goes, and its entries
 in the shared indexes. The client may be known under several norms; `n` is the current one.
 */
module ClientPurge {
  import opened ClientIndexLoops
  import opened ClientNames
  import opened ClientScope
  import opened ClientServerNames
  import opened Options

  predicate OwnedBy(o: Owner, norms: set<string>) {
    o.Client? && o.norm != "" && o.norm in norms
  }

  predicate SomeIn(n: Option<string>, norms: set<string>) {
    n.Some? && n.value != "" && n.value in norms
  }

  predicate PurgesEng(ek: EngKey, m: Maps, n: string, norms: set<string>) {
    match ek
    case EngCode(c) => SomeIn(Get(m.codes, c), norms)
    case EngClient(x) => x == n
    case EngOther(_) => false
  }

  function WithoutNorm(es: seq<Entry>, n: string): seq<Entry> {
    if es == [] then []
    else if es[|es| - 1].norm == n then WithoutNorm(es[..|es| - 1], n)
    else WithoutNorm(es[..|es| - 1], n) + [es[|es| - 1]]
  }

  function PurgeCodeIndex(ci: map<string, string>, m: Maps, norms: set<string>): map<string, string> {
    map c | c in ci && !SomeIn(CodeEntryOwner(m, c, ci[c]), norms) :: ci[c]
  }

  function PurgeRoadmapIndex(ri: map<string, Meta>, m: Maps, norms: set<string>): map<string, Meta> {
    map c | c in ri && !SomeIn(MetaOwner(m, c, ri[c]), norms) :: ri[c]
  }

  function PurgePartition(p: map<EngKey, string>, m: Maps, n: string, norms: set<string>): map<EngKey, string> {
    map ek | ek in p && !PurgesEng(ek, m, n, norms) :: p[ek]
  }

  function PurgeRoadmap(r: Roadmap, m: Maps, n: string, norms: set<string>): Roadmap {
    r.(fams := map f | f in r.fams :: PurgePartition(r.fams[f], m, n, norms))
  }

  /** The workspace without the client. Who owns a code is read from the workspace alone. */
  function Purged(w: Workspace, n: string, norms: set<string>): Workspace {
    var m := BuildMaps(w, map[]);
    Workspace(
      if w.index.Some? then Some(WithoutNorm(w.index.value, n)) else None,
      if w.codeIndex.Some? then Some(PurgeCodeIndex(w.codeIndex.value, m, norms)) else None,
      if w.roadmapIndex.Some? then Some(PurgeRoadmapIndex(w.roadmapIndex.value, m, norms)) else None,
      if w.roadmap.Some? then Some(PurgeRoadmap(w.roadmap.value, m, n, norms)) else None,
      map k | k in w.keys && !OwnedBy(Resolve(k, Some(w.keys[k]), m), norms) :: w.keys[k])
  }

  /** The engagements table once the client's rows are deleted. */
  function RowsLeft(t: Trusted, norms: set<string>): Trusted {
    map c | c in t && Norm(t[c]) !in norms :: t[c]
  }

  // ---------- Nothing is left ----------

  /** The norms are norms, not empty and not the word for everybody; no code is one of them, and the index lists the client under its current norm only. */
  ghost predicate Clean(w: Workspace, n: string, norms: set<string>) {
    && n in norms && "" !in norms && GLOBAL !in norms
    && (forall k | k in w.keys && CodeIn(k).Some? :: CodeIn(k).value !in norms)
    && (forall e | e in Entries(w) && e.norm in norms :: e.norm == n)
  }

  function CodeIn(k: Key): Option<string> {
    if k.FamilyKey? && (k.seg.Plain? || k.seg.Eng?) && k.seg.id.CodeId? then Some(k.seg.id.code) else None
  }

  lemma {:induction false} WithoutNormMembers(es: seq<Entry>, n: string)
    ensures forall e :: e in WithoutNorm(es, n) <==> e in es && e.norm != n
  {
    if es != [] {
      assert es == es[..|es| - 1] + [es[|es| - 1]];
      WithoutNormMembers(es[..|es| - 1], n);
    }
  }

  /** A purge keeps each norm to one entry. */
  lemma {:induction false} PurgeKeepsDistinct(es: seq<Entry>, n: string)
    requires DistinctNorms(es)
    ensures DistinctNorms(WithoutNorm(es, n))
  {
    if es != [] {
      InitIsDistinct(es);
      PurgeKeepsDistinct(es[..|es| - 1], n);
      WithoutNormMembers(es[..|es| - 1], n);
      SnocIsDistinct(WithoutNorm(es[..|es| - 1], n), es[|es| - 1]);
    }
  }

  /** A record that survives names no purged norm, for it resolves to the client it names. */
  lemma SurvivingRecord(w: Workspace, n: string, norms: set<string>, c: string)
    ensures !SomeIn(RecordClient(Purged(w, n, norms).keys, c), norms)
  {
    var k := RecordKey(c);
    NormIsNotGlobal();
    if k in Purged(w, n, norms).keys {
      MapsAreOwners(w, map[]);
      assert Get(BuildMaps(w, map[]).codes, c) == CodeOwner(w, map[], c);
    }
  }

  lemma SurvivingSession(w: Workspace, n: string, norms: set<string>, id: string)
    ensures !SomeIn(SessionClient(Purged(w, n, norms).keys, id), norms)
  {
    if Session(id) in Purged(w, n, norms).keys {
      MapsAreOwners(w, map[]);
      assert Get(BuildMaps(w, map[]).sessions, id) == SessionClient(w.keys, id);
    }
  }

  lemma SurvivingCode(w: Workspace, n: string, norms: set<string>, t: Trusted, c: string)
    requires Clean(w, n, norms)
    ensures !SomeIn(CodeOwner(Purged(w, n, norms), RowsLeft(t, norms), c), norms)
  {
    var p := Purged(w, n, norms);
    if c !in RowsLeft(t, norms) {
      SurvivingRecord(w, n, norms, c);
      WithoutNormMembers(Entries(w), n);
      LastIndexedIsThere(Entries(p), c);
    }
  }

  /** The maps after the purge say of no code and no session that it is the client's. */
  lemma PurgedMapsAreClear(w: Workspace, n: string, norms: set<string>, t: Trusted)
    requires Clean(w, n, norms)
    ensures var m := BuildMaps(Purged(w, n, norms), RowsLeft(t, norms));
            (forall c :: !SomeIn(Get(m.codes, c), norms)) && forall id :: !SomeIn(Get(m.sessions, id), norms)
  {
    var p, left := Purged(w, n, norms), RowsLeft(t, norms);
    var m := BuildMaps(p, left);
    MapsAreOwners(p, left);
    forall c ensures !SomeIn(Get(m.codes, c), norms) {
      SurvivingCode(w, n, norms, t, c);
      assert Get(m.codes, c) == CodeOwner(p, left, c);
    }
    forall id ensures !SomeIn(Get(m.sessions, id), norms) {
      SurvivingSession(w, n, norms, id);
      assert Get(m.sessions, id) == SessionClient(p.keys, id);
    }
  }

  lemma {:induction false} LastIndexedStays(es: seq<Entry>, n: string, c: string)
    ensures LastIndexed(es, c).Some? && LastIndexed(es, c).value != n ==> LastIndexed(WithoutNorm(es, n), c) == LastIndexed(es, c)
  {
    if es != [] {
      var init, last := es[..|es| - 1], es[|es| - 1];
      LastIndexedStays(init, n, c);
      if last.norm != n {
        assert WithoutNorm(es, n)[..|WithoutNorm(init, n)|] == WithoutNorm(init, n);
      }
    }
  }

  /** The record of somebody else's engagement is still there. */
  lemma OtherRecordStays(w: Workspace, n: string, norms: set<string>, c: string)
    requires CodeOwner(w, map[], c).Some? && CodeOwner(w, map[], c).value !in norms && RecordKey(c) in w.keys && c !in norms
    ensures RecordKey(c) in Purged(w, n, norms).keys && Purged(w, n, norms).keys[RecordKey(c)] == w.keys[RecordKey(c)]
  {
    MapsAreOwners(w, map[]);
    assert Get(BuildMaps(w, map[]).codes, c) == CodeOwner(w, map[], c);
  }

  /** A code that the workspace gave to somebody else is still theirs, or the table's. */
  lemma OtherOwnerStays(w: Workspace, n: string, norms: set<string>, t: Trusted, c: string)
    requires Clean(w, n, norms) && CodeOwner(w, map[], c).Some? && CodeOwner(w, map[], c).value !in norms
    ensures CodeOwner(Purged(w, n, norms), RowsLeft(t, norms), c) == if c in RowsLeft(t, norms) then Some(Norm(t[c])) else CodeOwner(w, map[], c)
  {
    if RecordKey(c) in w.keys {
      assert CodeIn(RecordKey(c)) == Some(c);
      OtherRecordStays(w, n, norms, c);
    }
    LastIndexedStays(Entries(w), n, c);
  }

  /**
   A key under one of the norms which the workspace takes for another client's, because the norm reads as a code, and
   for which the table then has a name without a letter or digit.
   */
  ghost predicate NamelessRow(w: Workspace, norms: set<string>, t: Trusted, k: Key) {
    && k in w.keys && ReadAsCode(k) && !k.family.NormKeyed? && k.seg.id.NormId? && k.seg.id.norm in norms && k.seg.id.norm != GLOBAL
    && var c := Upper(k.seg.id.norm);
       && c in RowsLeft(t, norms) && Norm(t[c]) == ""
       && var own := CodeOwner(w, map[], c); own.Some? && own.value != "" && own.value !in norms
  }

  /** By the owner of its code before and after: the key is not purged, and is still the client's. */
  predicate LeftByText(f: Family, id: Ident, own: Option<string>, after: Option<string>, norms: set<string>) {
    !OwnedBy(Named(OwnerText(f, id, own)), norms) && OwnedBy(Named(OwnerText(f, id, after)), norms)
  }

  lemma LookedUpByText(w: Workspace, n: string, norms: set<string>, t: Trusted, k: Key)
    requires Clean(w, n, norms) && ReadAsCode(k)
    ensures var p, c := Purged(w, n, norms), CodeText(k.seg.id);
            k in p.keys && OwnedBy(Resolve(k, KeyAt(p.keys, k), BuildMaps(p, RowsLeft(t, norms))), norms) <==>
              k in w.keys && LeftByText(k.family, k.seg.id, CodeOwner(w, map[], c), CodeOwner(p, RowsLeft(t, norms), c), norms)
  {
    var p, left, c := Purged(w, n, norms), RowsLeft(t, norms), CodeText(k.seg.id);
    MapsAreOwners(w, map[]);
    MapsAreOwners(p, left);
    assert Get(BuildMaps(w, map[]).codes, c) == CodeOwner(w, map[], c);
    assert Get(BuildMaps(p, left).codes, c) == CodeOwner(p, left, c);
  }

  lemma LookedUpIsLeft(w: Workspace, n: string, norms: set<string>, t: Trusted, k: Key)
    requires Clean(w, n, norms) && ReadAsCode(k) && k in w.keys
    ensures var c := CodeText(k.seg.id);
            NamelessRow(w, norms, t, k) <==>
              LeftByText(k.family, k.seg.id, CodeOwner(w, map[], c), CodeOwner(Purged(w, n, norms), RowsLeft(t, norms), c), norms)
  {
    var c := CodeText(k.seg.id);
    var own := CodeOwner(w, map[], c);
    SurvivingCode(w, n, norms, t, c);
    assert k.seg.id.CodeId? ==> CodeIn(k) == Some(c);
    if own.Some? && own.value !in norms {
      OtherOwnerStays(w, n, norms, t, c);
    }
  }

  /**
   Nothing of the client is left among the keys. Once the workspace is purged and the client's rows are
   deleted, no key resolves to any of its norms, but for the one shape above, and no entry of the engagement
   index names one.
   */
  lemma NothingIsLeft(w: Workspace, n: string, norms: set<string>, t: Trusted, k: Key)
    requires Clean(w, n, norms)
    ensures var p := Purged(w, n, norms);
            && (k in p.keys && OwnedBy(Resolve(k, KeyAt(p.keys, k), BuildMaps(p, RowsLeft(t, norms))), norms) <==> NamelessRow(w, norms, t, k))
            && (forall e | e in Entries(p) :: e.norm !in norms)
  {
    var p, left := Purged(w, n, norms), RowsLeft(t, norms);
    WithoutNormMembers(Entries(w), n);
    if ReadAsCode(k) {
      LookedUpByText(w, n, norms, t, k);
      if k in w.keys { LookedUpIsLeft(w, n, norms, t, k); }
    } else if k in p.keys {
      MapsAreOwners(p, left);
      if k.Session? {
        SurvivingSession(w, n, norms, k.id);
        assert Get(BuildMaps(p, left).sessions, k.id) == SessionClient(p.keys, k.id);
      }
    }
  }

  lemma CodeIndexIsClear(w: Workspace, n: string, norms: set<string>, t: Trusted, c: string)
    requires Clean(w, n, norms)
    ensures var p := Purged(w, n, norms);
            p.codeIndex.Some? && c in p.codeIndex.value ==> !SomeIn(CodeEntryOwner(BuildMaps(p, RowsLeft(t, norms)), c, p.codeIndex.value[c]), norms)
  {
    PurgedMapsAreClear(w, n, norms, t);
    var p := Purged(w, n, norms);
    if p.codeIndex.Some? && c in p.codeIndex.value {
      assert !SomeIn(Get(BuildMaps(p, RowsLeft(t, norms)).sessions, p.codeIndex.value[c]), norms);
    }
  }

  lemma RoadmapIndexIsClear(w: Workspace, n: string, norms: set<string>, t: Trusted, c: string)
    requires Clean(w, n, norms)
    ensures var p := Purged(w, n, norms);
            p.roadmapIndex.Some? && c in p.roadmapIndex.value ==> !SomeIn(MetaOwner(BuildMaps(p, RowsLeft(t, norms)), c, p.roadmapIndex.value[c]), norms)
  {
    var p, left, own := Purged(w, n, norms), RowsLeft(t, norms), CodeOwner(w, map[], c);
    SurvivingCode(w, n, norms, t, c);
    if own.Some? && own.value !in norms { OtherOwnerStays(w, n, norms, t, c); }
    MapsAreOwners(p, left);
    MapsAreOwners(w, map[]);
    assert Get(BuildMaps(p, left).codes, c) == CodeOwner(p, left, c);
    assert Get(BuildMaps(w, map[]).codes, c) == own;
  }

  /** Nothing of the client is left in the code index or the roadmap index either. */
  lemma IndexesAreClear(w: Workspace, n: string, norms: set<string>, t: Trusted, c: string)
    requires Clean(w, n, norms)
    ensures var p := Purged(w, n, norms);
            var m := BuildMaps(p, RowsLeft(t, norms));
            && (p.codeIndex.Some? && c in p.codeIndex.value ==> !SomeIn(CodeEntryOwner(m, c, p.codeIndex.value[c]), norms))
            && (p.roadmapIndex.Some? && c in p.roadmapIndex.value ==> !SomeIn(MetaOwner(m, c, p.roadmapIndex.value[c]), norms))
  {
    CodeIndexIsClear(w, n, norms, t, c);
    RoadmapIndexIsClear(w, n, norms, t, c);
  }

  /** Whose a partition of the roadmap is. */
  predicate EngOwned(ek: EngKey, m: Maps, norms: set<string>) {
    match ek
    case EngCode(c) => SomeIn(Get(m.codes, c), norms)
    case EngClient(x) => x != "" && x in norms
    case EngOther(_) => false
  }

  /** A partition kept under a norm of the client's other than the current one. */
  predicate OlderPartition(w: Workspace, n: string, norms: set<string>, f: RoadmapFamily, ek: EngKey) {
    ek in Partition(RoadmapOf(w), f) && ek.EngClient? && ek.norm != "" && ek.norm in norms && ek.norm != n
  }

  /** A partition that is there once the client is purged, and the client's. */
  ghost predicate PartitionLeft(w: Workspace, n: string, norms: set<string>, t: Trusted, f: RoadmapFamily, ek: EngKey) {
    var p := Purged(w, n, norms);
    ek in Partition(RoadmapOf(p), f) && EngOwned(ek, BuildMaps(p, RowsLeft(t, norms)), norms)
  }

  /**
   What the purge leaves of the roadmap: of the client's partitions exactly those kept under one of its older
   norms, for only the current one is compared with; what it leaves is as it was.
   */
  lemma OlderPartitionStays(w: Workspace, n: string, norms: set<string>, t: Trusted, f: RoadmapFamily, ek: EngKey)
    requires Clean(w, n, norms)
    ensures PartitionLeft(w, n, norms, t, f, ek) <==> OlderPartition(w, n, norms, f, ek)
    ensures var left := Partition(RoadmapOf(Purged(w, n, norms)), f);
            ek in left ==> ek in Partition(RoadmapOf(w), f) && left[ek] == Partition(RoadmapOf(w), f)[ek]
  {
    PurgedMapsAreClear(w, n, norms, t);
  }

  /** So the roadmap is clear of the client exactly when it had no partition under an older norm. */
  lemma RoadmapIsClear(w: Workspace, n: string, norms: set<string>, t: Trusted)
    requires Clean(w, n, norms)
    ensures (forall f, ek :: !PartitionLeft(w, n, norms, t, f, ek)) <==> (forall f, ek :: !OlderPartition(w, n, norms, f, ek))
  {
    forall f, ek ensures PartitionLeft(w, n, norms, t, f, ek) <==> OlderPartition(w, n, norms, f, ek) {
      OlderPartitionStays(w, n, norms, t, f, ek);
    }
  }

  /**
   The same of the engagement index: where it lists the client under an older norm, that entry stays, and a
   code still resolves to the client exactly when neither the table nor a record that is left says
   otherwise and the last entry left for it is such an entry.
   */
  lemma OlderIndexEntryStays(w: Workspace, n: string, norms: set<string>, t: Trusted, c: string)
    ensures var p, left := Purged(w, n, norms), RowsLeft(t, norms);
            && (forall e :: e in Entries(p) && e.norm in norms <==> e in Entries(w) && e.norm in norms && e.norm != n)
            && (SomeIn(CodeOwner(p, left, c), norms) <==>
                  c !in left && RecordClient(p.keys, c).None? && SomeIn(LastIndexed(WithoutNorm(Entries(w), n), c), norms))
            && (var last := LastIndexed(Entries(w), c);
                last.Some? && last.value != n && c !in left && RecordClient(p.keys, c).None? ==> CodeOwner(p, left, c) == last)
  {
    WithoutNormMembers(Entries(w), n);
    LastIndexedStays(Entries(w), n, c);
    SurvivingRecord(w, n, norms, c);
  }

  // ---------- Nobody else's ----------

  /** Where the names are the server's, the workspace's own word on a code is the table's, as far as it goes. */
  lemma OwnWordIsTheTables(w: Workspace, t: Trusted, c: string)
    requires ServerNamed(w, t) && Knows(t, c)
    ensures CodeOwner(w, map[], c).Some? ==> CodeOwner(w, map[], c) == Some(Norm(t[c]))
  {
    var k := RecordKey(c);
    if k in w.keys {
      assert EnforceValue(k, w.keys[k], t) == w.keys[k];
    }
    LastIndexedIsThere(Entries(w), c);
  }

  /** The key is under one of the norms, and the workspace names nobody for the code that the norm reads as. */
  predicate TakenForTheClients(w: Workspace, norms: set<string>, k: Key) {
    && ReadAsCode(k) && k.seg.id.NormId? && k.seg.id.norm in norms && k.seg.id.norm != "" && k.seg.id.norm != GLOBAL
    && StandsForItself(k.family, CodeOwner(w, map[], Upper(k.seg.id.norm)))
  }

  /**
   Nobody else loses anything. Where the names are the server's, a key that resolves to another client,
   by the table or by itself, is still there with its value, except exactly where only the table knows
   that the norm it is under is read as another client's code.
   */
  lemma OthersKeepTheirKeys(w: Workspace, n: string, norms: set<string>, t: Trusted, k: Key)
    requires ServerNamed(w, t) && Clean(w, n, norms) && forall c | c in t :: Knows(t, c)
    requires k in w.keys && !OwnedBy(Resolve(k, Some(w.keys[k]), BuildMaps(w, t)), norms)
    ensures KeyAt(Purged(w, n, norms).keys, k) == (if TakenForTheClients(w, norms, k) then None else Some(w.keys[k]))
    ensures TakenForTheClients(w, norms, k) ==> Upper(k.seg.id.norm) in t
  {
    MapsAreOwners(w, t);
    MapsAreOwners(w, map[]);
    var m, own := BuildMaps(w, t), BuildMaps(w, map[]);
    if ReadAsCode(k) {
      var c := CodeText(k.seg.id);
      assert Get(m.codes, c) == CodeOwner(w, t, c) && Get(own.codes, c) == CodeOwner(w, map[], c);
      if c in t { OwnWordIsTheTables(w, t, c); }
      OwnWordDecides(k, w.keys[k], own, m, norms);
    } else if k.Session? {
      assert Get(m.sessions, k.id) == SessionClient(w.keys, k.id) && Get(own.sessions, k.id) == SessionClient(w.keys, k.id);
    }
  }

  lemma OwnWordDecides(k: Key, v: Value, own: Maps, m: Maps, norms: set<string>)
    requires ReadAsCode(k) && "" !in norms && (k.seg.id.CodeId? ==> k.seg.id.code !in norms)
    requires Get(own.codes, CodeText(k.seg.id)).Some? ==> Get(m.codes, CodeText(k.seg.id)) == Get(own.codes, CodeText(k.seg.id))
    requires !OwnedBy(Resolve(k, Some(v), m), norms)
    ensures OwnedBy(Resolve(k, Some(v), own), norms) <==>
              && k.seg.id.NormId? && k.seg.id.norm in norms && k.seg.id.norm != GLOBAL
              && StandsForItself(k.family, Get(own.codes, CodeText(k.seg.id)))
  {
  }

  predicate OneOf(n: Option<string>, norms: set<string>) {
    n.Some? && n.value in norms
  }

  /** By the workspace's own word on the code, else by the client that the other thing it says names. */
  predicate TheClients(w: Workspace, norms: set<string>, c: string, other: Option<string>) {
    if CodeOwner(w, map[], c).Some? then CodeOwner(w, map[], c).value in norms else OneOf(other, norms)
  }

  function NormNamed(name: Option<string>): Option<string> {
    if name.Some? && name.value != "" then Some(Norm(name.value)) else None
  }

  /** What is left of a map: all of it but the entries that `gone` holds of, and each as it was. */
  ghost predicate LeftOf<K(!new), V(!new)>(before: Option<map<K, V>>, after: Option<map<K, V>>, gone: (K, V) -> bool) {
    && after.Some? == before.Some?
    && (before.Some? ==> forall k :: Lookup(after.value, k) ==
                           if k in before.value && !gone(k, before.value[k]) then Some(before.value[k]) else None)
  }

  /**
   Of the code-keyed indexes and the roadmap a purge takes exactly what is the client's: an entry of a code that the
   workspace gives to it, or of a code given to nobody whose session or name is the client's; a partition of such a code,
   or of the client's norm. All else, the flat slots too, is as it was.
   */
  lemma SharedKeysLoseOnlyTheClients(w: Workspace, n: string, norms: set<string>)
    requires "" !in norms
    ensures var p := Purged(w, n, norms);
            && LeftOf(w.codeIndex, p.codeIndex, (c, s) => TheClients(w, norms, c, SessionClient(w.keys, s)))
            && LeftOf(w.roadmapIndex, p.roadmapIndex, (c, meta: Meta) => TheClients(w, norms, c, NormNamed(meta.clientName)))
  {
    MapsAreOwners(w, map[]);
    var m := BuildMaps(w, map[]);
    forall c, s ensures SomeIn(CodeEntryOwner(m, c, s), norms) <==> TheClients(w, norms, c, SessionClient(w.keys, s)) {
      assert Get(m.codes, c) == CodeOwner(w, map[], c) && Get(m.sessions, s) == SessionClient(w.keys, s);
    }
    forall c, meta: Meta ensures SomeIn(MetaOwner(m, c, meta), norms) <==> TheClients(w, norms, c, NormNamed(meta.clientName)) {
      assert Get(m.codes, c) == CodeOwner(w, map[], c);
    }
  }

  lemma RoadmapLosesOnlyTheClients(w: Workspace, n: string, norms: set<string>, f: RoadmapFamily)
    requires "" !in norms && w.roadmap.Some?
    ensures var p := Purged(w, n, norms);
            && p.roadmap.Some? && p.roadmap.value.flat == w.roadmap.value.flat && p.roadmap.value.savedAt == w.roadmap.value.savedAt
            && LeftOf(Lookup(w.roadmap.value.fams, f), Lookup(p.roadmap.value.fams, f),
                      (ek: EngKey, text: string) => (ek.EngCode? && OneOf(CodeOwner(w, map[], ek.code), norms)) || ek == EngClient(n))
  {
    MapsAreOwners(w, map[]);
    var m := BuildMaps(w, map[]);
    forall ek ensures PurgesEng(ek, m, n, norms) <==> (ek.EngCode? && OneOf(CodeOwner(w, map[], ek.code), norms)) || ek == EngClient(n) {
      if ek.EngCode? { assert Get(m.codes, ek.code) == CodeOwner(w, map[], ek.code); }
    }
  }

  /**
   What purging on the workspace's own word misses: a key of the client's whose segment reads as a code, and is not
   itself one of the client's norms, is left behind exactly when neither a record nor the index says whose code it is.
   */
  lemma UnindexedCodeIsLeft(w: Workspace, n: string, norms: set<string>, t: Trusted, k: Key)
    requires ServerNamed(w, t) && Clean(w, n, norms) && k in w.keys && ReadAsCode(k) && IdText(k.seg.id) !in norms
    requires var c := CodeText(k.seg.id); Knows(t, c) && Norm(t[c]) != "" && Norm(t[c]) in norms
    ensures k in Purged(w, n, norms).keys <==> CodeOwner(w, map[], CodeText(k.seg.id)).None?
  {
    var c := CodeText(k.seg.id);
    MapsAreOwners(w, map[]);
    assert Get(BuildMaps(w, map[]).codes, c) == CodeOwner(w, map[], c);
    OwnWordIsTheTables(w, t, c);
    NormIsNotGlobal();
  }

  // ---------- The loops ----------

  method PurgeEntries(es: seq<Entry>, n: string) returns (kept: seq<Entry>)
    ensures kept == WithoutNorm(es, n)
  {
    kept := [];
    for i := 0 to |es|
      invariant kept == WithoutNorm(es[..i], n)
    {
      assert es[..i + 1][..i] == es[..i];
      if es[i].norm != n { kept := kept + [es[i]]; }
    }
    assert es[..|es|] == es;
  }

  predicate PurgesCode(ci: map<string, string>, c: string, m: Maps, norms: set<string>) {
    c in ci && SomeIn(CodeEntryOwner(m, c, ci[c]), norms)
  }

  predicate PurgesMeta(ri: map<string, Meta>, c: string, m: Maps, norms: set<string>) {
    c in ri && SomeIn(MetaOwner(m, c, ri[c]), norms)
  }

  method PurgeCodes(ci: map<string, string>, m: Maps, norms: set<string>) returns (kept: map<string, string>)
    ensures kept == PurgeCodeIndex(ci, m, norms)
  {
    kept := ci;
    var todo := ci.Keys;
    while todo != {}
      invariant todo <= ci.Keys
      invariant forall c :: Lookup(kept, c) == if c !in todo && PurgesCode(ci, c, m, norms) then None else Lookup(ci, c)
      decreases |todo|
    {
      var c :| c in todo;
      if PurgesCode(ci, c, m, norms) { kept := kept - {c}; }
      todo := todo - {c};
    }
    SameLookups(kept, PurgeCodeIndex(ci, m, norms));
  }

  method PurgeMetas(ri: map<string, Meta>, m: Maps, norms: set<string>) returns (kept: map<string, Meta>)
    ensures kept == PurgeRoadmapIndex(ri, m, norms)
  {
    kept := ri;
    var todo := ri.Keys;
    while todo != {}
      invariant todo <= ri.Keys
      invariant forall c :: Lookup(kept, c) == if c !in todo && PurgesMeta(ri, c, m, norms) then None else Lookup(ri, c)
      decreases |todo|
    {
      var c :| c in todo;
      if PurgesMeta(ri, c, m, norms) { kept := kept - {c}; }
      todo := todo - {c};
    }
    SameLookups(kept, PurgeRoadmapIndex(ri, m, norms));
  }

  method PurgeOnePartition(p: map<EngKey, string>, m: Maps, n: string, norms: set<string>) returns (kept: map<EngKey, string>)
    ensures kept == PurgePartition(p, m, n, norms)
  {
    kept := p;
    var todo := p.Keys;
    while todo != {}
      invariant todo <= p.Keys
      invariant forall ek :: Lookup(kept, ek) == if ek !in todo && PurgesEng(ek, m, n, norms) then None else Lookup(p, ek)
      decreases |todo|
    {
      var ek :| ek in todo;
      if PurgesEng(ek, m, n, norms) { kept := kept - {ek}; }
      todo := todo - {ek};
    }
    SameLookups(kept, PurgePartition(p, m, n, norms));
  }

  method PurgePartitions(r: Roadmap, m: Maps, n: string, norms: set<string>) returns (out: Roadmap)
    ensures out == PurgeRoadmap(r, m, n, norms)
  {
    var fams := r.fams;
    for i := 0 to |ALL_FAMILIES|
      invariant forall f :: Lookup(fams, f) ==
                  if PlaceOf(f) < i && f in r.fams then Some(PurgePartition(r.fams[f], m, n, norms)) else Lookup(r.fams, f)
    {
      var f := ALL_FAMILIES[i];
      FamiliesAreAll(f, i);
      assert Lookup(fams, f) == Lookup(r.fams, f);
      if f in fams {
        var kept := PurgeOnePartition(fams[f], m, n, norms);
        fams := fams[f := kept];
      }
      forall g ensures ALL_FAMILIES[i] == g <==> PlaceOf(g) == i { FamiliesAreAll(g, i); }
    }
    out := r.(fams := fams);
    SameLookups(fams, PurgeRoadmap(r, m, n, norms).fams);
  }

  /** The keys to delete. */
  method PurgeClientKeys(w: Workspace, n: string, norms: set<string>) returns (deletes: set<Key>, index: Option<seq<Entry>>)
    ensures w.keys - deletes == Purged(w, n, norms).keys && deletes <= w.keys.Keys
    ensures index == Purged(w, n, norms).index
  {
    var m := BuildMaps(w, map[]);
    deletes := {};
    var todo := w.keys.Keys;
    while todo != {}
      invariant todo <= w.keys.Keys
      invariant deletes == set k | k in w.keys && k !in todo && OwnedBy(Resolve(k, Some(w.keys[k]), m), norms)
      decreases todo
    {
      var k :| k in todo;
      if OwnedBy(Resolve(k, Some(w.keys[k]), m), norms) { deletes := deletes + {k}; }
      todo := todo - {k};
    }
    index := w.index;
    if w.index.Some? {
      var kept := PurgeEntries(w.index.value, n);
      index := Some(kept);
    }
  }

  /** The whole purge: the keys and all four shared keys. */
  method PurgeWorkspace(w: Workspace, n: string, norms: set<string>) returns (out: Workspace)
    ensures out == Purged(w, n, norms)
  {
    var m := BuildMaps(w, map[]);
    var deletes, index := PurgeClientKeys(w, n, norms);
    var codes := PurgeCodes(OrEmpty(w.codeIndex), m, norms);
    var metas := PurgeMetas(OrEmpty(w.roadmapIndex), m, norms);
    var roadmap := PurgePartitions(RoadmapOf(w), m, n, norms);
    out := Workspace(
      index,
      if w.codeIndex.Some? then Some(codes) else None,
      if w.roadmapIndex.Some? then Some(metas) else None,
      if w.roadmap.Some? then Some(roadmap) else None,
      w.keys - deletes);
  }
}
