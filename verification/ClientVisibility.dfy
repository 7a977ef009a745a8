/**
 What a restricted caller is shown, and what a restricted caller's write does: exactly the holdings of
 the clients allowed, no more and no less.
 */
module ClientVisibility {
  import opened ClientNames
  import opened ClientScope
  import opened ClientIsolation
  import opened Options

  function Nothing(): Holdings {
    Holdings([], map[], map[], map f | f in FAMILIES :: map[], map[])
  }

  // ---------- Reads ----------

  /** What is to be shown of the entries of `n`. */
  function ToShow(es: seq<Entry>, allowed: set<string>, n: string): seq<Entry> {
    if Has(allowed, n) then EntriesOf(es, n) else []
  }

  lemma ToShowConcat(a: seq<Entry>, b: seq<Entry>, allowed: set<string>, n: string)
    ensures ToShow(a + b, allowed, n) == ToShow(a, allowed, n) + ToShow(b, allowed, n)
  {
    EntriesOfConcat(a, b, n);
  }

  lemma OneEntryShown(e: Entry, allowed: set<string>, n: string)
    ensures EntriesOf(if Has(allowed, e.norm) then [e] else [], n) == ToShow([e], allowed, n)
  {
    assert [e][..0] == [] && EntriesOf([], n) == [];
    assert EntriesOf([e], n) == if Has({n}, e.norm) then [e] else [];
  }

  lemma FilterByOne(es: seq<Entry>, allowed: set<string>)
    requires es != []
    ensures var last := es[|es| - 1];
            FilterEntries(es, allowed, true) == FilterEntries(es[..|es| - 1], allowed, true) + (if Has(allowed, last.norm) then [last] else [])
  {
  }

  lemma {:induction false} EntriesShown(es: seq<Entry>, allowed: set<string>, n: string)
    ensures EntriesOf(FilterEntries(es, allowed, true), n) == ToShow(es, allowed, n)
  {
    if es != [] {
      var init, last := es[..|es| - 1], es[|es| - 1];
      EntriesShown(init, allowed, n);
      OneEntryShown(last, allowed, n);
      FilterByOne(es, allowed);
      EntriesOfConcat(FilterEntries(init, allowed, true), if Has(allowed, last.norm) then [last] else [], n);
      ToShowConcat(init, [last], allowed, n);
      assert es == init + [last];
    }
  }

  lemma RowsDecide(w: Workspace, t: Trusted, c: string)
    requires c in t
    ensures Get(BuildMaps(w, t).codes, c) == Some(Norm(t[c]))
  {
    MapsAreOwners(w, t);
  }

  lemma CodeIndexShown(ci: map<string, string>, allowed: set<string>, w: Workspace, t: Trusted, n: string)
    ensures CodeIndexOf(FilterCodeIndex(ci, allowed, BuildMaps(w, t), true), t, n) == if Has(allowed, n) then CodeIndexOf(ci, t, n) else map[]
  {
    forall c | c in t && Norm(t[c]) == n
      ensures Get(BuildMaps(w, t).codes, c) == Some(n)
    {
      RowsDecide(w, t, c);
    }
  }

  lemma RoadmapIndexShown(ri: map<string, Meta>, allowed: set<string>, w: Workspace, t: Trusted, n: string)
    ensures RoadmapIndexOf(FilterRoadmapIndex(ri, allowed, BuildMaps(w, t), true), t, n) ==
            if Has(allowed, n) then RoadmapIndexOf(ri, t, n) else map[]
  {
    forall c | c in t && Norm(t[c]) == n
      ensures Get(BuildMaps(w, t).codes, c) == Some(n)
    {
      RowsDecide(w, t, c);
    }
  }

  lemma PartitionShown(p: map<EngKey, string>, allowed: set<string>, w: Workspace, t: Trusted, n: string)
    ensures PartitionOf(FilterPartition(p, allowed, BuildMaps(w, t), true), t, n) == if Has(allowed, n) then PartitionOf(p, t, n) else map[]
  {
    forall ek | EngHeld(ek, t, n)
      ensures EngAllowed(ek, allowed, BuildMaps(w, t)) <==> Has(allowed, n)
    {
      if ek.EngCode? { RowsDecide(w, t, ek.code); }
    }
  }

  lemma FamilyShown(r: Roadmap, allowed: set<string>, w: Workspace, t: Trusted, n: string, f: RoadmapFamily)
    requires f in FAMILIES
    ensures PartitionOf(Partition(FilterRoadmap(r, allowed, BuildMaps(w, t)), f), t, n) ==
            if Has(allowed, n) then PartitionOf(Partition(r, f), t, n) else map[]
  {
    var m := BuildMaps(w, t);
    PartitionShown(Partition(r, f), allowed, w, t, n);
    assert Partition(FilterRoadmap(r, allowed, m), f) == FilterPartition(Partition(r, f), allowed, m, true);
  }

  lemma FilteredRoadmapShown(r: Roadmap, allowed: set<string>, w: Workspace, t: Trusted, n: string)
    ensures PartitionsOf(FilterRoadmap(r, allowed, BuildMaps(w, t)), t, n) == if Has(allowed, n) then PartitionsOf(r, t, n) else Nothing().partitions
  {
    var shown := FilterRoadmap(r, allowed, BuildMaps(w, t));
    forall f | f in FAMILIES
      ensures PartitionOf(Partition(shown, f), t, n) == if Has(allowed, n) then PartitionOf(Partition(r, f), t, n) else map[]
    {
      FamilyShown(r, allowed, w, t, n, f);
    }
  }

  lemma AbsentRoadmap(t: Trusted, n: string)
    ensures PartitionsOf(Roadmap(map[], None, map[]), t, n) == Nothing().partitions
  {
  }

  lemma RoadmapShown(w: Workspace, allowed: set<string>, t: Trusted, n: string)
    ensures PartitionsOf(RoadmapOf(Filter(w, allowed, t)), t, n) == if Has(allowed, n) then PartitionsOf(RoadmapOf(w), t, n) else Nothing().partitions
  {
    if w.roadmap.Some? {
      FilteredRoadmapShown(w.roadmap.value, allowed, w, t, n);
    } else {
      AbsentRoadmap(t, n);
    }
  }

  /** A key addressed to a client resolves to that client, if a row stands for the code its norm reads as, or nobody is named for it. */
  lemma AddressedResolves(k: Key, v: Option<Value>, w: Workspace, t: Trusted, n: string)
    requires n != "" && AddressedTo(k, t) == Some(n) && (Upper(n) in t || Unclaimed(w, n))
    ensures Resolve(k, v, BuildMaps(w, t)) == Client(n)
  {
    if ReadAsCode(k) {
      var c := CodeText(k.seg.id);
      MapsAreOwners(w, t);
      assert Get(BuildMaps(w, t).codes, c) == CodeOwner(w, t, c);
      NormIsNotGlobal();
    }
  }

  lemma KeysShown(w: Workspace, allowed: set<string>, t: Trusted, n: string)
    requires n != "" && (Upper(n) in t || Unclaimed(w, n))
    ensures KeysOf(Filter(w, allowed, t).keys, t, n) == if Has(allowed, n) then KeysOf(w.keys, t, n) else map[]
  {
    forall k | k in w.keys && AddressedTo(k, t) == Some(n)
      ensures k in Filter(w, allowed, t).keys <==> Has(allowed, n)
    {
      AddressedResolves(k, Some(w.keys[k]), w, t, n);
    }
  }

  lemma IndexesShown(w: Workspace, allowed: set<string>, t: Trusted, n: string)
    ensures var f := Filter(w, allowed, t);
            && CodeIndexOf(OrEmpty(f.codeIndex), t, n) == (if Has(allowed, n) then CodeIndexOf(OrEmpty(w.codeIndex), t, n) else map[])
            && RoadmapIndexOf(OrEmpty(f.roadmapIndex), t, n) == (if Has(allowed, n) then RoadmapIndexOf(OrEmpty(w.roadmapIndex), t, n) else map[])
  {
    CodeIndexShown(OrEmpty(w.codeIndex), allowed, w, t, n);
    RoadmapIndexShown(OrEmpty(w.roadmapIndex), allowed, w, t, n);
  }

  /**
   Exactly what is allowed is shown. Of what is addressed to a client, by its norm or by a code with a row in
   the table, a restricted caller reads all index entries, indexes and roadmap partitions as they are if the
   client is allowed, and nothing if it is not; and the same of all keys, if nobody names the code that the
   norm reads as.
   */
  lemma ExactlyTheAllowedIsShown(w: Workspace, allowed: set<string>, t: Trusted, n: string)
    requires n != ""
    ensures var shown, held := HoldingsOf(Filter(w, allowed, t), t, n), HoldingsOf(w, t, n);
            && SharedOf(shown) == SharedOf(if Has(allowed, n) then held else Nothing())
            && (Upper(n) in t || Unclaimed(w, n) ==> shown == if Has(allowed, n) then held else Nothing())
  {
    EntriesShown(Entries(w), allowed, n);
    IndexesShown(w, allowed, t, n);
    RoadmapShown(w, allowed, t, n);
    if Upper(n) in t || Unclaimed(w, n) {
      KeysShown(w, allowed, t, n);
    }
  }

  /** The last briefing is shown to everybody if it says that it is nobody's in particular. */
  lemma GlobalBriefingIsShown(w: Workspace, allowed: set<string>, t: Trusted, fields: Fields)
    requires KeyAt(w.keys, LastBriefing) == Some(Doc(fields)) && "normKey" in fields && fields["normKey"].Text?
    ensures KeyAt(Filter(w, allowed, t).keys, LastBriefing) == if Passes(allowed, fields["normKey"].s) then Some(Doc(fields)) else None
  {
  }

  /** A stored session is shown, value for value, exactly when the client it names is allowed. */
  lemma SessionsShown(w: Workspace, allowed: set<string>, t: Trusted, id: string)
    ensures KeyAt(Filter(w, allowed, t).keys, Session(id)) ==
            if HasSome(allowed, SessionClient(w.keys, id)) then KeyAt(w.keys, Session(id)) else None
  {
    MapsAreOwners(w, t);
    assert Get(BuildMaps(w, t).sessions, id) == SessionClient(w.keys, id);
  }

  // ---------- Writes ----------

  /** The request's own word, or the server's, gives the code the segment reads as to somebody the caller may not see. */
  predicate Diverted(w: Workspace, sets: Workspace, allowed: set<string>, t: Trusted, k: Key) {
    ReadAsCode(k) && !Passes(allowed, OwnerText(k.family, k.seg.id, BindingOf(w, sets, t, CodeText(k.seg.id))))
  }

  /** A write to a key of an allowed client lands as it was sent, set, removed, or left alone, exactly unless it is diverted. */
  lemma OwnWritesLand(w: Workspace, req: Change, allowed: set<string>, t: Trusted, n: string, k: Key)
    requires Has(allowed, n) && AddressedTo(k, t) == Some(n)
    ensures KeyAt(Step(w, req, allowed, t).keys, k) ==
            After(KeyAt(w.keys, k), KeyAt(req.sets.keys, k), k in req.deletes, !Diverted(w, req.sets, allowed, t, k))
    ensures OutOfReach(w, req.sets, t, n) ==> !Diverted(w, req.sets, allowed, t, k)
  {
    if ReadAsCode(k) {
      LookedUpExactly(w, req, allowed, t, k);
    } else {
      KeysAfter(w, req, allowed, t, k);
    }
  }

  /** So a restricted caller reads back what was written. */
  lemma OwnWritesAreRead(w: Workspace, req: Change, allowed: set<string>, t: Trusted, n: string, k: Key)
    requires Has(allowed, n) && AddressedTo(k, t) == Some(n)
    ensures var read := KeyAt(Filter(Step(w, req, allowed, t), allowed, t).keys, k);
            OutOfReach(w, req.sets, t, n) ==> read == After(KeyAt(w.keys, k), KeyAt(req.sets.keys, k), k in req.deletes, true)
    ensures var after := Step(w, req, allowed, t);
            KeyAt(Filter(after, allowed, t).keys, k) ==
              if ReadAsCode(k) && !Passes(allowed, OwnerText(k.family, k.seg.id, CodeOwner(after, t, CodeText(k.seg.id)))) then None
              else KeyAt(after.keys, k)
  {
    var after := Step(w, req, allowed, t);
    OwnWritesLand(w, req, allowed, t, n, k);
    if ReadAsCode(k) {
      LookedUpShown(after, allowed, t, k);
      if OutOfReach(w, req.sets, t, n) {
        if Upper(n) !in t { UnclaimedStays(w, req, allowed, t, n); }
        AddressedResolves(k, KeyAt(after.keys, k), after, t, n);
      }
    }
  }
}
