/**
 A rename in the data: whose copy survives, what is written where it stays, and what becomes of the two indexes, the
 roadmap and the tables, entry by entry.
 */
module ClientRenameMeaning {
  import opened ClientFields
  import opened ClientNames
  import opened ClientRename
  import opened ClientRenameProofs
  import opened ClientScope
  import opened Options

  // ---------- Whose copy survives ----------

  /** The first row that the norms found match. */
  predicate FirstRow(rows: seq<Row>, norms: set<string>, i: int) {
    0 <= i < |rows| && RowMatches(rows[i], norms) && forall k | 0 <= k < i :: !RowMatches(rows[k], norms)
  }

  lemma {:induction false} FirstMatchIsFirst(rows: seq<Row>, norms: set<string>)
    ensures FirstMatch(rows, norms).None? <==> forall i | 0 <= i < |rows| :: !RowMatches(rows[i], norms)
    ensures forall i | FirstRow(rows, norms, i) :: FirstMatch(rows, norms) == Some(Norm(rows[i].name))
  {
    if rows != [] && !RowMatches(rows[0], norms) {
      FirstMatchIsFirst(rows[1..], norms);
      forall i | FirstRow(rows, norms, i) ensures FirstMatch(rows, norms) == Some(Norm(rows[i].name)) {
        assert rows[1..][i - 1] == rows[i];
        assert forall k | 0 <= k < i - 1 :: rows[1..][k] == rows[k + 1];
        assert FirstRow(rows[1..], norms, i - 1);
      }
      assert forall k | 0 <= k < |rows| - 1 :: rows[1..][k] == rows[k + 1];
    }
  }

  lemma {:induction false} FirstIndexedIsThere(es: seq<Entry>, c: string)
    ensures FirstIndexed(es, c).Some? ==> Entry(FirstIndexed(es, c).value, c) in es && FirstIndexed(es, c).value != ""
    ensures FirstIndexed(es, c).None? ==> forall e | e in es :: e.code == c ==> e.norm == ""
  {
    if es != [] {
      FirstIndexedIsThere(es[1..], c);
      assert es == [es[0]] + es[1..];
    }
  }

  predicate Unindexed(w: Workspace, c: string) {
    forall e | e in Entries(w) && e.code == c :: e.norm == ""
  }

  /**
   The preferred copy is the canonical name's: that of the first row of the engagements table that matches; where none
   does, of the name given, then of the index and the record of the code; and it is always one of the norms found.
   */
  lemma PreferredExactly(world: World, target: Target, newName: string)
    requires OwnedNorms(world.w, ResolveCode(world.w, target), target.name) != {}
    ensures var j, found := JobFor(world, target, newName), OwnedNorms(world.w, ResolveCode(world.w, target), target.name);
            && (forall i | FirstRow(world.engagements, found, i) :: j.preferred == Norm(world.engagements[i].name))
            && ((forall r | r in world.engagements :: !RowMatches(r, found)) ==>
                  && j.preferred in found
                  && (Norm(target.name) != "" ==> j.preferred == Norm(target.name))
                  && (Norm(target.name) == "" && j.code.Some? && (exists e :: e in Entries(world.w) && e.code == j.code.value && e.norm != "") ==>
                        Entry(j.preferred, j.code.value) in Entries(world.w))
                  && (Norm(target.name) == "" && j.code.Some? && Unindexed(world.w, j.code.value) && NormIn(RecordClient(world.w.keys, j.code.value), found) ==>
                        Some(j.preferred) == RecordClient(world.w.keys, j.code.value)))
  {
    var code := ResolveCode(world.w, target);
    FirstMatchIsFirst(world.engagements, OwnedNorms(world.w, code, target.name));
    if code.Some? { FirstIndexedIsThere(Entries(world.w), code.value); }
  }

  /** Of the copies that move to one place the preferred one survives, else the one already there, else the first by name. */
  lemma SurvivorExactly(w: Workspace, d: Key, j: Job, n: string)
    requires d in Destinations(w, j)
    ensures n in Rivals(w, d, j) <==> n in j.norms && At(d, n) in w.keys && CodeOwner(w, map[], Upper(n)).None?
    ensures n in Rivals(w, d, j) && (n == j.preferred || (j.preferred !in Rivals(w, d, j) && n == j.NewNorm())
                                     || (j.preferred !in Rivals(w, d, j) && j.NewNorm() !in Rivals(w, d, j) && IsLeast(n, Rivals(w, d, j)))) ==>
              Moved(w, d, j) == SetName(w.keys[At(d, n)], j)
  {
    MovedIsNamed(w, d, j);
    LeastExists(Rivals(w, d, j));
  }

  /** What is reported as given up was there, and is replaced: by what comes to a place that was not ours, or by another of our own copies. */
  lemma DebrisIsReal(w: Workspace, j: Job, k: Key)
    requires k in Debris(w, j)
    ensures k in w.keys && NormAddressed(k)
    ensures (k in Destinations(w, j) && k.seg.id.norm == j.NewNorm() && j.NewNorm() !in j.norms) ||
            (k in Deleted(w, j) && At(k, j.NewNorm()) in Destinations(w, j) &&
             exists n :: n in Rivals(w, k, j) && n != k.seg.id.norm && Moved(w, At(k, j.NewNorm()), j) == SetName(w.keys[At(k, n)], j))
  {
    if k in Deleted(w, j) && Beaten(w, k, j) {
      RivalsHold(w, k, j);
      assert At(At(k, j.NewNorm()), Winner(Rivals(w, k, j), j)) == At(k, Winner(Rivals(w, k, j), j));
      assert Winner(Rivals(w, k, j), j) in Rivals(w, k, j);
    } else {
      DestinationIsNew(w, k, j);
    }
  }

  // ---------- What is written where it stays ----------

  /** The client that the value names, in `client` or else in `clientName`, is one of ours. */
  predicate NamesOurs(v: Value, norms: set<string>) {
    v.Doc? &&
    (if TextOf(v.fields, "client").Some? then Norm(TextOf(v.fields, "client").value) in norms
     else TextOf(v.fields, "clientName").Some? && Norm(TextOf(v.fields, "clientName").value) in norms)
  }

  /** Where a key stays, the rename reaches its value: by the code that its segment reads as, by a session's client, or by its own name. */
  predicate Reached(w: Workspace, k: Key, v: Value, j: Job) {
    match k
    case FamilyKey(_, Plain(id), _) => j.code == Some(CodeText(id)) || NormIn(CodeOwner(w, map[], CodeText(id)), j.norms)
    case FamilyKey(_, _, _) => false
    case Session(id) => NormIn(SessionClient(w.keys, id), j.norms)
    case MiscKey(_) => NamesOurs(v, j.norms)
    case _ => false
  }

  /** A value that stays has the names written in exactly if the rename reaches it, and is otherwise as it was. */
  lemma StayingExactly(w: Workspace, k: Key, j: Job)
    requires k in w.keys && !k.LastBriefing? && !k.Snapshots?
    ensures Rewrite(w, k, w.keys[k], j) == if Reached(w, k, w.keys[k], j) then SetName(w.keys[k], j) else w.keys[k]
    ensures k !in Destinations(w, j) && k !in Deleted(w, j) ==> k in NewKeys(w, j) && NewKeys(w, j)[k] == Rewrite(w, k, w.keys[k], j)
    ensures Written(w.keys[k], SetName(w.keys[k], j), j)
  {
    SetNameWrites(w.keys[k], j);
    if k.Session? {
      MapsAreOwners(w, map[]);
      assert Get(BuildMaps(w, map[]).sessions, k.id) == SessionClient(w.keys, k.id);
    }
  }

  /** The last briefing is ours by its norm, or by its client's name. */
  lemma BriefingOursExactly(v: Value, j: Job)
    ensures BriefingOurs(v, j) <==>
              v.Doc? && ((exists n :: TextOf(v.fields, "normKey") == Some(n) && n in j.norms)
                         || (exists c :: TextOf(v.fields, "client") == Some(c) && Norm(c) in j.norms))
  {
    if v.Doc? {
      var a, b := TextOf(v.fields, "normKey"), TextOf(v.fields, "client");
      assert a.Some? ==> a == Some(a.value);
      assert b.Some? ==> b == Some(b.value);
    }
  }

  // ---------- The indexes and the roadmap ----------

  /** Of the engagement: its code, or one of the norms found. */
  predicate OurEntry(e: Entry, j: Job) {
    j.code == Some(e.code) || e.norm in j.norms
  }

  /** The code takes the new norm, in place of whatever stood there. */
  predicate TakesTheNorm(es: seq<Entry>, j: Job) {
    j.code.Some? && exists e :: e in es && OurEntry(e, j)
  }

  lemma {:induction false} BoundExactly(es: seq<Entry>, n: string, c: string, e: Entry)
    requires DistinctNorms(es)
    ensures e in Bind(es, n, c) <==> e == Entry(n, c) || (e in es && e.norm != n)
  {
    if es != [] {
      assert es == [es[0]] + es[1..];
      forall i, k | 0 <= i < k < |es[1..]| ensures es[1..][i].norm != es[1..][k].norm {
        assert es[1..][i] == es[i + 1] && es[1..][k] == es[k + 1];
      }
      if es[0].norm == n {
        forall f | f in es[1..] ensures f.norm != n {
          var k :| 0 <= k < |es[1..]| && es[1..][k] == f;
          assert es[k + 1] == f && es[0].norm != es[k + 1].norm;
        }
      } else {
        BoundExactly(es[1..], n, c, e);
      }
    }
  }

  /** The index after a rename, entry by entry: what is not ours stays, what is ours goes, and the code has the new norm. */
  lemma IndexExactly(es: seq<Entry>, j: Job, e: Entry)
    requires DistinctNorms(es)
    ensures e in NewIndex(es, j) <==>
              || (TakesTheNorm(es, j) && e == Entry(j.NewNorm(), j.code.value))
              || (e in es && (if e.norm == j.NewNorm() then !TakesTheNorm(es, j) else !OurEntry(e, j)))
  {
    DroppedMembers(es, j);
    DroppedAreDistinct(es, j);
    if TakesTheNorm(es, j) {
      BoundExactly(DropOurs(es, j), j.NewNorm(), j.code.value, e);
    }
  }

  /** In the roadmap index the new name goes into the engagement's own entry and into those that name one of the norms. */
  lemma RoadmapIndexExactly(ri: map<string, Meta>, j: Job, c: string)
    ensures c in NewRoadmapIndex(ri, j) <==> c in ri
    ensures c in ri ==>
              NewRoadmapIndex(ri, j)[c] ==
                Meta(if j.code == Some(c) || (exists s :: ri[c].clientName == Some(s) && Norm(s) in j.norms) then Some(j.newName) else ri[c].clientName,
                     ri[c].rest)
  {
    if c in ri && ri[c].clientName.Some? {
      assert ri[c].clientName == Some(ri[c].clientName.value);
    }
  }

  /** A partition of an old norm. */
  predicate OldPartition(p: map<EngKey, string>, j: Job, n: string) {
    n in j.norms && n != j.NewNorm() && EngClient(n) in p
  }

  /**
   A roadmap partition of a norm that is given up is moved to the new one, the preferred norm's if it has one, else that of
   the first by name; every other partition stays, but the new norm's own where one moves there.
   */
  lemma PartitionExactly(p: map<EngKey, string>, j: Job, ek: EngKey)
    ensures var r, moves := NewPartition(p, j), exists n :: OldPartition(p, j, n);
            && (ek.EngClient? && OldPartition(p, j, ek.norm) ==> ek !in r)
            && (!(ek.EngClient? && OldPartition(p, j, ek.norm)) && !(ek == EngClient(j.NewNorm()) && moves) ==>
                  (ek in r <==> ek in p) && (ek in p ==> r[ek] == p[ek]))
            && (moves ==> EngClient(j.NewNorm()) in r && exists n :: OldPartition(p, j, n) && r[EngClient(j.NewNorm())] == p[EngClient(n)])
            && (OldPartition(p, j, j.preferred) ==> r[EngClient(j.NewNorm())] == p[EngClient(j.preferred)])
            && (forall n | !OldPartition(p, j, j.preferred) && IsLeast(n, PartitionRivals(p, j)) :: r[EngClient(j.NewNorm())] == p[EngClient(n)])
  {
    var rivals := PartitionRivals(p, j);
    forall n ensures n in rivals <==> OldPartition(p, j, n) { }
    if rivals != {} { LeastExists(rivals); }
  }

  /** Of the shared keys a rename touches these three, where they are there, and nothing else of them. */
  lemma SharedAreRenamed(w: Workspace, j: Job, c: string, f: RoadmapFamily)
    ensures var r := Renamed(w, j);
            && r.codeIndex == w.codeIndex
            && (r.index.Some? <==> w.index.Some?) && (w.index.Some? ==> r.index.value == NewIndex(w.index.value, j))
            && (r.roadmapIndex.Some? <==> w.roadmapIndex.Some?)
            && (w.roadmapIndex.Some? && c in w.roadmapIndex.value ==>
                  c in r.roadmapIndex.value && r.roadmapIndex.value[c] == NewMeta(c, w.roadmapIndex.value[c], j))
            && (r.roadmap.Some? <==> w.roadmap.Some?)
            && (w.roadmap.Some? ==>
                  && r.roadmap.value.flat == w.roadmap.value.flat && r.roadmap.value.savedAt == w.roadmap.value.savedAt
                  && (f in r.roadmap.value.fams <==> f in w.roadmap.value.fams)
                  && (f in w.roadmap.value.fams ==> r.roadmap.value.fams[f] == NewPartition(w.roadmap.value.fams[f], j)))
  {
  }

  // ---------- The tables ----------

  /** A row takes the new name exactly if its norm, or its older and shorter one, is among the norms; no row comes or goes. */
  lemma RowsExactly(rows: seq<Row>, norms: set<string>, newName: string)
    ensures var after := NewRows(rows, norms, newName);
            |after| == |rows| && forall i | 0 <= i < |rows| ::
              after[i] == Row(rows[i].id, if Norm(rows[i].name) in norms || LegacyNorm(rows[i].name) in norms then newName else rows[i].name)
  {
  }
}
