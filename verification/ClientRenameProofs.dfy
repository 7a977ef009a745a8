/**
 What a rename guarantees, and exactly where it does not: nothing is left under an old name, nothing is
 lost without a report, nobody else is touched, and an earlier name stays free to go back to.
 */
module ClientRenameProofs {
  import opened ClientNames
  import opened ClientScope
  import opened ClientRename
  import opened Options

  // ---------- Moves ----------

  lemma RivalsHold(w: Workspace, k: Key, j: Job)
    requires k in w.keys && Moving(w, k, j)
    ensures k.seg.id.norm in Rivals(w, k, j)
    ensures Rivals(w, At(k, j.NewNorm()), j) == Rivals(w, k, j)
  {
    assert At(k, k.seg.id.norm) == k;
    forall n ensures At(At(k, j.NewNorm()), n) == At(k, n) {
    }
  }

  lemma DestinationIsNew(w: Workspace, k: Key, j: Job)
    requires k in Destinations(w, j)
    ensures NormAddressed(k) && k.seg.id.norm == j.NewNorm()
  {
  }

  /**
   A key under an old norm that the rename leaves where it is: its segment reads as a known code, or as the
   engagement's own, and then the name is written into it.
   */
  predicate LeftAsCode(w: Workspace, j: Job, k: Key) {
    k in w.keys && NormAddressed(k) && k.seg.id.norm in j.Stale() && (KnownCode(w, k.seg.id) || Overlaid(w, k, j))
  }

  /** Exactly such keys are still addressed by an old norm of ours. */
  lemma NoStaleKey(w: Workspace, j: Job, k: Key)
    requires NormAddressed(k)
    ensures k in NewKeys(w, j) && k.seg.id.norm in j.Stale() <==> LeftAsCode(w, j, k)
  {
    if k in Destinations(w, j) {
      DestinationIsNew(w, k, j);
    }
  }

  /** Where no old norm reads as a code that is known or the engagement's own, there are none. */
  lemma NoneLeftAsCode(w: Workspace, j: Job, k: Key)
    requires forall n | n in j.Stale() :: CodeOwner(w, map[], Upper(n)).None? && j.code != Some(Upper(n))
    ensures !LeftAsCode(w, j, k)
  {
  }

  lemma SetNameIsClean(v: Value, j: Job, field: string)
    ensures !NamesStale(SetName(v, j), field, j.Stale())
  {
  }

  lemma MovedIsNamed(w: Workspace, d: Key, j: Job)
    requires d in Destinations(w, j)
    ensures exists n :: n in Rivals(w, d, j) && Moved(w, d, j) == SetName(w.keys[At(d, n)], j)
  {
    var rivals := Rivals(w, d, j);
    var k :| k in w.keys && Moving(w, k, j) && d == At(k, j.NewNorm());
    RivalsHold(w, k, j);
    assert Winner(rivals, j) in rivals;
  }

  /** A family key that the rename wrote, or that its code addresses, carries no old name in any text field. */
  lemma NoStaleField(w: Workspace, j: Job, k: Key, field: string)
    requires k in NewKeys(w, j) && Scanned(w, j, k)
    ensures !NamesStale(NewKeys(w, j)[k], field, j.Stale())
  {
    if k in Destinations(w, j) && !Overlaid(w, k, j) {
      MovedIsNamed(w, k, j);
      var n :| n in Rivals(w, k, j) && Moved(w, k, j) == SetName(w.keys[At(k, n)], j);
      SetNameIsClean(w.keys[At(k, n)], j, field);
    } else {
      assert NewKeys(w, j)[k] == Rewrite(w, k, w.keys[k], j);
      if Ours(w, k, j) {
        SetNameIsClean(w.keys[k], j, field);
      } else {
        assert NewKeys(w, j)[k] == w.keys[k];
      }
    }
  }

  // ---------- The index ----------

  lemma {:induction false} DroppedMembers(es: seq<Entry>, j: Job)
    ensures forall e :: e in DropOurs(es, j) <==> e in es && !(EntryOurs(e, j) && e.norm != j.NewNorm())
  {
    if es != [] {
      DroppedMembers(es[..|es| - 1], j);
      assert es == es[..|es| - 1] + [es[|es| - 1]];
    }
  }

  lemma {:induction false} BindMembers(es: seq<Entry>, n: string, c: string)
    ensures Entry(n, c) in Bind(es, n, c)
    ensures forall e :: e in Bind(es, n, c) ==> e == Entry(n, c) || e in es
    ensures forall e :: e in es && e.norm != n ==> e in Bind(es, n, c)
  {
    if es != [] && es[0].norm != n {
      BindMembers(es[1..], n, c);
      assert es == [es[0]] + es[1..];
    }
  }

  /** Every entry left names a norm that is not old, and one that names our code names it under the new norm. */
  lemma NoStaleEntry(es: seq<Entry>, j: Job)
    ensures forall e :: e in NewIndex(es, j) ==> e.norm !in j.Stale() && (j.code == Some(e.code) ==> e.norm == j.NewNorm())
    ensures j.code.Some? && (exists e :: e in es && EntryOurs(e, j)) ==> Entry(j.NewNorm(), j.code.value) in NewIndex(es, j)
    ensures forall e :: e in es && !EntryOurs(e, j) && e.norm != j.NewNorm() ==> e in NewIndex(es, j)
  {
    DroppedMembers(es, j);
    if j.code.Some? {
      BindMembers(DropOurs(es, j), j.NewNorm(), j.code.value);
    }
  }

  // ---------- Owners after the rename ----------

  lemma NamedAfresh(v: Value, j: Job)
    requires v.Doc?
    ensures ClientNorm(SetName(v, j)).Some? ==> ClientNorm(SetName(v, j)).value == j.NewNorm()
    ensures ValueOwner(SetName(v, j)).Client? ==> ValueOwner(SetName(v, j)).norm == j.NewNorm()
  {
  }

  lemma CodeOwnerIsFresh(w: Workspace, j: Job, c: string)
    ensures !NormIn(CodeOwner(Renamed(w, j), map[], c), j.Stale())
  {
    var after := Renamed(w, j);
    var k := RecordKey(c);
    if RecordClient(after.keys, c).Some? {
      assert after.keys[k] == Rewrite(w, k, w.keys[k], j);
      if Ours(w, k, j) {
        NamedAfresh(w.keys[k], j);
      } else {
        assert CodeOwner(w, map[], c) == RecordClient(w.keys, c);
      }
    } else {
      LastIndexedIsThere(Entries(after), c);
      NoStaleEntry(Entries(w), j);
    }
  }

  lemma OtherOwnerIsFresh(w: Workspace, j: Job, k: Key)
    requires k in NewKeys(w, j) && (k.Session? || k.MiscKey?)
    ensures !OwnerIn(Resolve(k, Some(NewKeys(w, j)[k]), BuildMaps(Renamed(w, j), map[])), j.Stale())
  {
    var v, v' := w.keys[k], NewKeys(w, j)[k];
    MapsAreOwners(w, map[]);
    MapsAreOwners(Renamed(w, j), map[]);
    assert v' == Rewrite(w, k, v, j);
    if k.Session? {
      assert Get(BuildMaps(Renamed(w, j), map[]).sessions, k.id) == ClientNorm(v');
      assert Get(BuildMaps(w, map[]).sessions, k.id) == ClientNorm(v);
    }
    if v.Doc? {
      NamedAfresh(v, j);
    }
  }

  lemma BriefingIsFresh(w: Workspace, j: Job)
    requires j.NewNorm() != ""
    ensures BriefingIsLeft(NewKeys(w, j), j.Stale()) <==> LastBriefing in w.keys && w.keys[LastBriefing].Raw?
  {
    if LastBriefing in w.keys {
      assert NewKeys(w, j)[LastBriefing] == RewriteBriefing(w.keys[LastBriefing], j);
    }
  }

  // ---------- Nothing is left behind ----------

  /** Four shapes of workspace whose content the scan cannot clear. */
  predicate BriefingUnreadable(w: Workspace) {
    LastBriefing in w.keys && w.keys[LastBriefing].Raw?
  }

  predicate SnapshotsNamed(w: Workspace, stale: set<string>) {
    Snapshots in w.keys && OwnerIn(ValueOwner(w.keys[Snapshots]), stale)
  }

  /** The index changed and one of its codes reads, as a name, like an old name of ours. */
  predicate CodeReadsAsName(w: Workspace, j: Job) {
    Renamed(w, j).index != w.index && exists e :: e in Entries(Renamed(w, j)) && e.code != "" && Norm(e.code) in j.Stale()
  }

  /** A key stays under an old norm, because the norm reads as a code. */
  ghost predicate NormReadsAsCode(w: Workspace, j: Job) {
    exists k :: LeftAsCode(w, j, k)
  }

  lemma KeysAreClear(w: Workspace, j: Job, k: Key)
    requires k in NewKeys(w, j)
    ensures KeyIsLeft(Renamed(w, j), k, j.Stale()) <==> (k.Snapshots? && SnapshotsNamed(w, j.Stale())) || LeftAsCode(w, j, k)
  {
    match k
    case FamilyKey(_, _, _) => if NormAddressed(k) { NoStaleKey(w, j, k); }
    case Session(_) => OtherOwnerIsFresh(w, j, k);
    case MiscKey(_) => OtherOwnerIsFresh(w, j, k);
    case Snapshots => assert NewKeys(w, j)[k] == RewriteSnapshots(w.keys[k], j);
    case LastBriefing =>
    case GlobalKey(_) =>
    case OwnerKey(_) =>
  }

  lemma LegacyFromNorm(name: string)
    ensures LegacyNorm(name) == Take(Norm(name), LEGACY_NORM_MAX)
  {
  }

  lemma RowsAreClear(world: World, matched: set<string>, r: Row)
    requires r in world.engagements && Norm(r.name) in Widened(world, matched)
    ensures RowMatches(r, matched)
  {
    if Norm(r.name) !in matched {
      var r1 :| r1 in world.engagements && RowMatches(r1, matched) && Norm(r1.name) == Norm(r.name);
      LegacyFromNorm(r.name);
      LegacyFromNorm(r1.name);
    }
  }

  /**
   The post-condition. The scan of the renamed workspace and the rows finds nothing under an old
   name, in any place it looks, exactly when none of the four shapes above is present.
   */
  lemma ResidueIsEmpty(world: World, target: Target, newName: string)
    requires Plan(world, target, newName).Planned?
    ensures var o := Plan(world, target, newName);
            var w, stale := world.w, o.job.Stale();
            ResidueOf(world, o) == {} <==>
              || stale == {}
              || !(BriefingUnreadable(w) || SnapshotsNamed(w, stale) || CodeReadsAsName(w, o.job) || NormReadsAsCode(w, o.job))
  {
    var o := Plan(world, target, newName);
    var j, w := o.job, world.w;
    var after, stale := Renamed(w, j), j.Stale();
    if stale != {} {
      AllKeysAreClear(w, j);
      NoStaleEntry(Entries(w), j);
      BriefingIsFresh(w, j);
      forall k, f | k in after.keys && Scanned(w, j, k)
        ensures !NamesStale(after.keys[k], f, stale)
      {
        NoStaleField(w, j, k, f);
      }
      forall r | r in world.engagements && Norm(r.name) in stale ensures RowMatches(r, o.matched) {
        RowsAreClear(world, o.matched, r);
      }
      ResidueByParts(world, o);
    }
  }

  lemma AllKeysAreClear(w: Workspace, j: Job)
    ensures var after := Renamed(w, j);
            (forall k :: k in after.keys ==> !KeyIsLeft(after, k, j.Stale())) <==> !SnapshotsNamed(w, j.Stale()) && !NormReadsAsCode(w, j)
  {
    var after := Renamed(w, j);
    forall k | k in after.keys
      ensures KeyIsLeft(after, k, j.Stale()) <==> (k.Snapshots? && SnapshotsNamed(w, j.Stale())) || LeftAsCode(w, j, k)
    {
      KeysAreClear(w, j, k);
    }
    forall k | LeftAsCode(w, j, k) ensures k in after.keys {
      NoStaleKey(w, j, k);
    }
    if SnapshotsNamed(w, j.Stale()) {
      assert Snapshots in after.keys;
    }
  }

  /** A key that is left is reported. */
  lemma LeftKeyIsReported(world: World, target: Target, newName: string, k: Key)
    requires Plan(world, target, newName).Planned? && LeftAsCode(world.w, Plan(world, target, newName).job, k)
    ensures KeyLeft(k) in ResidueOf(world, Plan(world, target, newName))
  {
    NoStaleKey(world.w, Plan(world, target, newName).job, k);
  }

  lemma ResidueByParts(world: World, o: Outcome)
    requires o.Planned? && o.job.Stale() != {}
    ensures var j := o.job;
            var stale := j.Stale();
            var after := Renamed(world.w, j);
            ResidueOf(world, o) == {} <==>
              && (forall k :: k in after.keys ==> !KeyIsLeft(after, k, stale))
              && (forall e :: e in Entries(after) ==> !(e.norm in stale || (j.code == Some(e.code) && e.norm != j.NewNorm())))
              && !BriefingIsLeft(after.keys, stale)
              && (forall k, f :: k in after.keys && Scanned(world.w, j, k) && f in FieldsOf(after.keys[k]) ==> !NamesStale(after.keys[k], f, stale))
              && (forall e :: e in Entries(after) && after.index != world.w.index && e.code != "" ==> Norm(e.code) !in stale)
              && (forall r :: r in world.engagements && !RowMatches(r, o.matched) ==> Norm(r.name) !in stale)
  {
    var j := o.job;
    var stale := j.Stale();
    var after := Renamed(world.w, j);
    var res := ResidueOf(world, o);
    forall k | k in after.keys && KeyIsLeft(after, k, stale) ensures KeyLeft(k) in res { }
    forall e | e in Entries(after) && (e.norm in stale || (j.code == Some(e.code) && e.norm != j.NewNorm())) ensures EntryLeft(e) in res { }
    if BriefingIsLeft(after.keys, stale) { assert BriefingLeft in res; }
    forall k, f | k in after.keys && Scanned(world.w, j, k) && f in FieldsOf(after.keys[k]) && NamesStale(after.keys[k], f, stale)
      ensures NameLeft(k, f) in res { }
    forall e | e in Entries(after) && after.index != world.w.index && e.code != "" && Norm(e.code) in stale ensures IndexNameLeft(e) in res { }
    forall r | r in world.engagements && !RowMatches(r, o.matched) && Norm(r.name) in stale ensures EngagementLeft(r) in res { }
  }

  // ---------- Which keys still resolve to an old name ----------

  /** The key names an old norm after 'client_' or 'eng_', where the rename does not look for norms. */
  predicate Stranded(after: Workspace, k: Key, stale: set<string>) {
    && k.FamilyKey?
    && (|| (k.seg.ClientSeg? && k.seg.norm in stale && k.seg.norm != GLOBAL)
        || (k.seg.Eng? && OldNorm(after, k.family, k.seg.id, stale)))
  }

  predicate OldNorm(after: Workspace, f: Family, id: Ident, stale: set<string>) {
    id.NormId? && id.norm in stale && id.norm != GLOBAL && StandsForItself(f, CodeOwner(after, map[], CodeText(id)))
  }

  /** A code is never also one of our norms. */
  ghost predicate CodesAreNotNorms(w: Workspace, norms: set<string>) {
    forall k :: k in w.keys && k.FamilyKey? && (k.seg.Plain? || k.seg.Eng?) && k.seg.id.CodeId? ==> k.seg.id.code !in norms
  }

  lemma IdentIsStale(after: Workspace, k: Key, v: Value, j: Job, id: Ident)
    requires k.FamilyKey? && (k.seg == Plain(id) || k.seg == Eng(id))
    requires !NormIn(CodeOwner(after, map[], CodeText(id)), j.Stale()) && "" !in j.norms && (id.CodeId? ==> id.code !in j.norms)
    ensures OwnerIn(Resolve(k, Some(v), BuildMaps(after, map[])), j.Stale()) <==> OldNorm(after, k.family, id, j.Stale())
  {
    MapsAreOwners(after, map[]);
    assert Get(BuildMaps(after, map[]).codes, CodeText(id)) == CodeOwner(after, map[], CodeText(id));
  }

  /**
   After a rename a family key resolves to an old name exactly when it was stranded, and then it was there before,
   unchanged; or it was left as a code's, and nobody is named for that code any more.
   */
  lemma StrandedKeys(w: Workspace, j: Job, k: Key)
    requires k in NewKeys(w, j) && k.FamilyKey? && "" !in j.norms && CodesAreNotNorms(w, j.norms)
    ensures var after := Renamed(w, j);
            OwnerIn(Resolve(k, Some(NewKeys(w, j)[k]), BuildMaps(after, map[])), j.Stale()) <==>
              Stranded(after, k, j.Stale()) || (LeftAsCode(w, j, k) && OldNorm(after, k.family, k.seg.id, j.Stale()))
    ensures Stranded(Renamed(w, j), k, j.Stale()) ==> k in w.keys && NewKeys(w, j)[k] == w.keys[k]
  {
    var after := Renamed(w, j);
    if NormAddressed(k) {
      NoStaleKey(w, j, k);
    }
    if k.seg.Plain? || k.seg.Eng? {
      CodeOwnerIsFresh(w, j, CodeText(k.seg.id));
      assert k in w.keys || NormAddressed(k);
      IdentIsStale(after, k, NewKeys(w, j)[k], j, k.seg.id);
    }
  }

  // ---------- Nothing is lost without a report ----------

  /** What is stored where the rename moves to gives way without a report: a different value ends there, and the norm counts as ours. */
  predicate Overwritten(w: Workspace, j: Job, k: Key) {
    && k in w.keys && k in Destinations(w, j) && j.NewNorm() in j.norms && !Overlaid(w, k, j)
    && Moved(w, k, j) != w.keys[k] && Moved(w, k, j) != SetName(w.keys[k], j)
  }

  /** What moves gives way to what is stored where it moves to, because the new norm reads as a code of ours. */
  predicate Displaced(w: Workspace, j: Job, k: Key) {
    && k in w.keys && Moving(w, k, j) && k.seg.id.norm != j.NewNorm() && !Overlaid(w, k, j)
    && Rivals(w, k, j) != {} && k.seg.id.norm == Winner(Rivals(w, k, j), j)
    && var d := At(k, j.NewNorm()); Overlaid(w, d, j) && SetName(w.keys[d], j) != SetName(w.keys[k], j)
  }

  /** The key still holds its own value, renamed in place, or its value is now at the new norm, or the report names it. */
  predicate Accounted(w: Workspace, j: Job, k: Key)
    requires k in w.keys
  {
    || (k in NewKeys(w, j) && NewKeys(w, j)[k] == Rewrite(w, k, w.keys[k], j))
    || (NormAddressed(k) && At(k, j.NewNorm()) in Destinations(w, j) && NewKeys(w, j)[At(k, j.NewNorm())] == SetName(w.keys[k], j))
    || k in Debris(w, j)
  }

  lemma WinnerIsMoved(w: Workspace, k: Key, j: Job)
    requires k in w.keys && Moving(w, k, j)
    ensures k.seg.id.norm in Rivals(w, k, j)
    ensures var d := At(k, j.NewNorm());
            d in Destinations(w, j) &&
            (k.seg.id.norm == Winner(Rivals(w, k, j), j) ==> Moved(w, d, j) == SetName(w.keys[k], j)) &&
            Moved(w, d, j) == SetName(w.keys[At(k, Winner(Rivals(w, k, j), j))], j)
  {
    RivalsHold(w, k, j);
    var d := At(k, j.NewNorm());
    forall n ensures At(d, n) == At(k, n) { }
    assert At(k, k.seg.id.norm) == k;
  }

  lemma NotOverlaidStays(w: Workspace, j: Job, k: Key)
    requires k in w.keys && k.FamilyKey? && !Overlaid(w, k, j)
    ensures Rewrite(w, k, w.keys[k], j) == w.keys[k]
  {
  }

  lemma DestinationIsAccounted(w: Workspace, j: Job, k: Key)
    requires k in w.keys && k in Destinations(w, j)
    ensures Accounted(w, j, k) <==> !Overwritten(w, j, k)
  {
    DestinationIsNew(w, k, j);
    assert At(k, j.NewNorm()) == k;
    if !Overlaid(w, k, j) { NotOverlaidStays(w, j, k); }
    DebrisAtDestination(w, j, k);
  }

  lemma MoverIsAccounted(w: Workspace, j: Job, k: Key)
    requires k in w.keys && Moving(w, k, j) && k.seg.id.norm != j.NewNorm()
    ensures Accounted(w, j, k) <==> !Displaced(w, j, k)
  {
    WinnerIsMoved(w, k, j);
    DestinationIsNew(w, At(k, j.NewNorm()), j);
    if k.seg.id.norm != Winner(Rivals(w, k, j), j) {
      assert k in Deleted(w, j) && Beaten(w, k, j);
    }
  }

  /**
   Every key is accounted for, except exactly a copy where the rename moves to that gives way to a different
   value, and one that moves and itself gives way there.
   */
  lemma NothingLostSilently(w: Workspace, j: Job, k: Key)
    requires k in w.keys
    ensures Accounted(w, j, k) <==> !(Overwritten(w, j, k) || Displaced(w, j, k))
  {
    assert NormAddressed(k) ==> At(k, k.seg.id.norm) == k;
    if k in Destinations(w, j) {
      DestinationIsNew(w, k, j);
      DestinationIsAccounted(w, j, k);
    } else if Moving(w, k, j) {
      MoverIsAccounted(w, j, k);
    }
  }

  /** A copy of ours is replaced only by the canonical name's. */
  lemma OwnCopyIsReplacedByCanonical(w: Workspace, j: Job, k: Key)
    requires Overwritten(w, j, k) && Moving(w, k, j)
    ensures j.preferred in Rivals(w, k, j) && j.preferred != j.NewNorm() && Moved(w, k, j) == SetName(w.keys[At(k, j.preferred)], j)
  {
    DestinationIsNew(w, k, j);
    assert At(k, j.NewNorm()) == k;
    WinnerIsMoved(w, k, j);
  }

  lemma DebrisAtDestination(w: Workspace, j: Job, k: Key)
    requires k in w.keys && k in Destinations(w, j)
    ensures k in Debris(w, j) <==> j.NewNorm() !in j.norms
  {
    DestinationIsNew(w, k, j);
  }

  /** Renaming onto a norm that was not ours loses nothing silently, exactly unless the new norm reads as a code of ours. */
  lemma FreshNormLosesNothing(w: Workspace, j: Job, k: Key)
    requires k in w.keys && j.NewNorm() !in j.norms
    ensures Accounted(w, j, k) <==> !Displaced(w, j, k)
    ensures Displaced(w, j, k) ==> j.code == Some(Upper(j.NewNorm())) || NormIn(CodeOwner(w, map[], Upper(j.NewNorm())), j.norms)
  {
    NothingLostSilently(w, j, k);
  }

  // ---------- Nobody else is touched ----------

  /** A key of a client that is not ours keeps its value, unless it sits exactly where one of ours moves to. */
  lemma OthersUntouched(w: Workspace, j: Job, k: Key)
    requires k in w.keys && k !in Destinations(w, j)
    requires !k.LastBriefing? && !k.Snapshots? && !(k.FamilyKey? && k.seg.Plain? && j.code == Some(CodeText(k.seg.id)))
    requires !OwnerIn(Resolve(k, Some(w.keys[k]), BuildMaps(w, map[])), j.norms)
    requires "" !in j.norms && GLOBAL !in j.norms
    ensures k in NewKeys(w, j) && NewKeys(w, j)[k] == w.keys[k]
  {
    MapsAreOwners(w, map[]);
    if k.FamilyKey? && k.seg.Plain? {
      assert Get(BuildMaps(w, map[]).codes, CodeText(k.seg.id)) == CodeOwner(w, map[], CodeText(k.seg.id));
    }
  }

  // ---------- Runs of renames ----------

  /** Nothing that the planner looks at holds norm `n`: no index entry, row or assignment. */
  ghost predicate Unheld(world: World, n: string) {
    && (forall e :: e in Entries(world.w) ==> e.norm != n)
    && (forall r :: r in world.engagements ==> Norm(r.name) != n)
    && (forall r :: r in world.interviews ==> Norm(r.name) != n)
    && (forall a :: a in world.assignments ==> a.1 != n && Norm(world.assignments[a]) != n)
  }

  /** Nothing at all is under it: no key is addressed by it either. */
  ghost predicate Free(world: World, n: string) {
    Unheld(world, n) && (forall k :: k in world.w.keys && NormAddressed(k) ==> k.seg.id.norm != n)
  }

  lemma UnheldIsNotTaken(world: World, norms: set<string>, n: string)
    requires Unheld(world, n)
    ensures !Taken(world, norms, n)
  {
    EntryForIsThere(Entries(world.w), n);
  }

  lemma NewRowsNames(rows: seq<Row>, norms: set<string>, newName: string)
    ensures forall r :: r in NewRows(rows, norms, newName) ==> r.name == newName || (r in rows && !RowMatches(r, norms))
  {
  }

  lemma NewAssignmentsNames(assignments: map<(string, string), string>, j: Job)
    ensures var after := NewAssignments(assignments, j);
            forall a :: a in after ==>
              (a.1 == j.NewNorm() && after[a] == j.newName) ||
              (a in assignments && after[a] == assignments[a] && a.1 !in j.norms && Norm(assignments[a]) !in j.norms)
  {
    var after := NewAssignments(assignments, j);
    var moved := AssignedNorms(assignments, j.norms);
    forall a | a in after && !(a.1 == j.NewNorm() && after[a] == j.newName)
      ensures a in assignments && after[a] == assignments[a] && a.1 !in j.norms && Norm(assignments[a]) !in j.norms
    {
      assert a in assignments && a.1 !in moved;
    }
  }

  /**
   Access follows the rename. A user is assigned the new norm afterwards exactly when the user had it
   before, or had a norm that was assigned under one of our names; so nobody loses the client, and
   nobody else gains it.
   */
  lemma AccessFollows(assignments: map<(string, string), string>, j: Job, user: string)
    ensures (user, j.NewNorm()) in NewAssignments(assignments, j) <==>
            exists a :: a in assignments && a.0 == user && (a.1 == j.NewNorm() || a.1 in AssignedNorms(assignments, j.norms))
  {
    var moved := AssignedNorms(assignments, j.norms);
    if a :| a in assignments && a.0 == user && (a.1 == j.NewNorm() || a.1 in moved) {
      if a.1 !in moved {
        assert a == (user, j.NewNorm());
      }
    }
  }

  /** The entries of the renamed index are old ones, or the one that binds the new norm. */
  lemma NewEntriesNorms(es: seq<Entry>, j: Job)
    ensures forall e :: e in NewIndex(es, j) ==> e in es || e.norm == j.NewNorm()
  {
    DroppedMembers(es, j);
    if j.code.Some? {
      BindMembers(DropOurs(es, j), j.NewNorm(), j.code.value);
    }
  }

  lemma RenameLeavesUnheld(world: World, target: Target, newName: string, n: string)
    requires Plan(world, target, newName).Planned? && n != Norm(newName)
    requires n in Plan(world, target, newName).job.norms || Unheld(world, n)
    ensures Unheld(ApplyPlan(world, Plan(world, target, newName)), n)
  {
    var o := Plan(world, target, newName);
    var j, w := o.job, world.w;
    var world' := ApplyPlan(world, o);
    NoStaleEntry(Entries(w), j);
    NewEntriesNorms(Entries(w), j);
    NewRowsNames(world.engagements, o.matched, newName);
    NewRowsNames(world.interviews, j.norms, newName);
    NewAssignmentsNames(world.assignments, j);
    forall r | r in world'.engagements ensures Norm(r.name) != n {
      if r in world.engagements && !RowMatches(r, o.matched) && Norm(r.name) == n && n in j.norms {
        RowsAreClear(world, o.matched, r);
      }
    }
  }

  /** Some key under the norm is left as a code's. */
  ghost predicate StaysUnder(w: Workspace, j: Job, n: string) {
    exists k :: LeftAsCode(w, j, k) && k.seg.id.norm == n
  }

  lemma RenameLeavesKeys(w: Workspace, j: Job, n: string)
    requires n != j.NewNorm() && (n in j.norms || forall k :: k in w.keys && NormAddressed(k) ==> k.seg.id.norm != n)
    ensures (forall k :: k in NewKeys(w, j) && NormAddressed(k) ==> k.seg.id.norm != n) <==> !StaysUnder(w, j, n)
  {
    forall k | NormAddressed(k) && k.seg.id.norm == n ensures k in NewKeys(w, j) <==> LeftAsCode(w, j, k) {
      NoStaleKey(w, j, k);
      if k in Destinations(w, j) { DestinationIsNew(w, k, j); }
    }
  }

  /** A planned rename frees every norm it left, exactly unless a key stays under it as a code's, and takes none but the new one. */
  lemma RenameFrees(world: World, target: Target, newName: string, n: string)
    requires Plan(world, target, newName).Planned?
    requires n != Norm(newName)
    requires n in Plan(world, target, newName).job.norms || Free(world, n)
    ensures var o := Plan(world, target, newName);
            && Unheld(ApplyPlan(world, o), n)
            && (Free(ApplyPlan(world, o), n) <==> !StaysUnder(world.w, o.job, n))
  {
    RenameLeavesUnheld(world, target, newName, n);
    RenameLeavesKeys(world.w, Plan(world, target, newName).job, n);
  }

  datatype Rename = Rename(target: Target, newName: string)

  /** One request: refused and nothing changes, or planned and applied. */
  function After(world: World, r: Rename): World {
    var o := Plan(world, r.target, r.newName);
    if o.Planned? then ApplyPlan(world, o) else world
  }

  function AfterAll(world: World, rs: seq<Rename>): World
    decreases |rs|
  {
    if rs == [] then world else AfterAll(After(world, rs[0]), rs[1..])
  }

  /** A norm nothing holds stays so over any run of renames of any clients, unless one of them renames onto it. */
  lemma {:induction false} UnheldStays(world: World, rs: seq<Rename>, n: string)
    requires Unheld(world, n)
    requires forall i | 0 <= i < |rs| :: Norm(rs[i].newName) != n
    ensures Unheld(AfterAll(world, rs), n)
    decreases |rs|
  {
    if rs != [] {
      if Plan(world, rs[0].target, rs[0].newName).Planned? {
        RenameLeavesUnheld(world, rs[0].target, rs[0].newName, n);
      }
      UnheldStays(After(world, rs[0]), rs[1..], n);
    }
  }

  /** And so does one that nothing at all is under. */
  lemma {:induction false} FreeStaysFree(world: World, rs: seq<Rename>, n: string)
    requires Free(world, n)
    requires forall i | 0 <= i < |rs| :: Norm(rs[i].newName) != n
    ensures Free(AfterAll(world, rs), n)
    decreases |rs|
  {
    if rs != [] {
      if Plan(world, rs[0].target, rs[0].newName).Planned? {
        RenameFrees(world, rs[0].target, rs[0].newName, n);
      }
      FreeStaysFree(After(world, rs[0]), rs[1..], n);
    }
  }

  /** Something gives the target a norm: the caller's name, an index entry of its code, or its record. */
  ghost predicate HasNorm(w: Workspace, code: Option<string>, name: string) {
    || Norm(name) != ""
    || (code.Some? && (
          || (exists e :: e in Entries(w) && e.code == code.value && e.norm != "")
          || (RecordClient(w.keys, code.value).Some? && RecordClient(w.keys, code.value).value != "")))
  }

  lemma OwnedIsNamed(w: Workspace, code: Option<string>, name: string)
    ensures OwnedNorms(w, code, name) != {} <==> HasNorm(w, code, name)
  {
    var owned := OwnedNorms(w, code, name);
    if Norm(name) != "" {
      assert Norm(name) in owned;
    }
    if code.Some? {
      if e :| e in Entries(w) && e.code == code.value && e.norm != "" {
        assert e.norm in NormsOfCode(w, code.value) && e.norm in owned;
      }
      if RecordClient(w.keys, code.value).Some? && RecordClient(w.keys, code.value).value != "" {
        assert RecordClient(w.keys, code.value).value in NormsOfCode(w, code.value);
        assert RecordClient(w.keys, code.value).value in owned;
      }
    }
  }

  /** A record or an index entry says that the engagement exists. */
  ghost predicate CodeKnown(w: Workspace, c: string) {
    RecordKey(c) in w.keys || exists e :: e in Entries(w) && e.code == c
  }

  /**
   What a rename asks of the workspace: the engagement a code names exists and has a norm; or the name
   alone has one, and is indexed, or stands in a row, or has something for the rename to change.
   */
  ghost predicate Reachable(world: World, target: Target, newName: string) {
    if target.code != "" then CodeKnown(world.w, target.code) && HasNorm(world.w, Some(target.code), target.name)
    else
      var code := CodeUnder(world.w, Norm(target.name));
      && HasNorm(world.w, code, target.name)
      && OwnedNorms(world.w, code, target.name) != {}
      && (|| code.Some?
          || AnyRow(world.engagements, NormsOfName(target.name))
          || AnyRow(world.interviews, Widened(world, NormsOfName(target.name)))
          || Norm(newName) in NormsOfName(target.name)
          || Renamed(world.w, JobFor(world, target, newName)) != world.w)
  }

  lemma WidenedIsNotHeld(world: World, norms: set<string>, n: string)
    requires Unheld(world, n)
    ensures n in Widened(world, norms) <==> n in norms
  {
  }

  /** Onto a norm that nothing holds a rename is planned exactly when it is reachable: a collision never stands in the way. */
  lemma UnheldIsPlanned(world: World, target: Target, newName: string)
    requires Unheld(world, Norm(newName)) && Norm(newName) != ""
    ensures Plan(world, target, newName) != Refused(Collision)
    ensures Plan(world, target, newName).Planned? <==> Reachable(world, target, newName)
  {
    var code := ResolveCode(world.w, target);
    var matched := OwnedNorms(world.w, code, target.name);
    OwnedIsNamed(world.w, code, target.name);
    LastIndexedNamed(Entries(world.w), target.code);
    UnheldIsNotTaken(world, Widened(world, matched), Norm(newName));
    WidenedIsNotHeld(world, matched, Norm(newName));
    if code.None? {
      assert matched == NormsOfName(target.name);
    }
  }

  lemma NormsAreNotEmpty(world: World, target: Target, newName: string)
    requires Plan(world, target, newName).Planned?
    ensures "" !in Plan(world, target, newName).job.norms
  {
  }

  /**
   Going back. After a rename away from `n` and any run of further renames none of which took `n`, a rename to
   a name whose norm is `n` is never refused for a collision; and it is planned exactly when its target can
   still be reached.
   */
  lemma RenameBackIsFree(world: World, first: Rename, later: seq<Rename>, back: Rename)
    requires Plan(world, first.target, first.newName).Planned?
    requires Norm(back.newName) in Plan(world, first.target, first.newName).job.Stale()
    requires forall i | 0 <= i < |later| :: Norm(later[i].newName) != Norm(back.newName)
    ensures var after := AfterAll(After(world, first), later);
            && Plan(after, back.target, back.newName) != Refused(Collision)
            && (Plan(after, back.target, back.newName).Planned? <==> Reachable(after, back.target, back.newName))
  {
    LeavingLeavesUnheld(world, first, Norm(back.newName));
    UnheldIsLaterPlanned(After(world, first), later, back);
  }

  lemma LeavingLeavesUnheld(world: World, first: Rename, n: string)
    requires Plan(world, first.target, first.newName).Planned? && n in Plan(world, first.target, first.newName).job.Stale()
    ensures Unheld(After(world, first), n) && n != ""
  {
    RenameLeavesUnheld(world, first.target, first.newName, n);
    NormsAreNotEmpty(world, first.target, first.newName);
  }

  lemma UnheldIsLaterPlanned(world: World, later: seq<Rename>, back: Rename)
    requires Unheld(world, Norm(back.newName)) && Norm(back.newName) != ""
    requires forall i | 0 <= i < |later| :: Norm(later[i].newName) != Norm(back.newName)
    ensures var after := AfterAll(world, later);
            && Plan(after, back.target, back.newName) != Refused(Collision)
            && (Plan(after, back.target, back.newName).Planned? <==> Reachable(after, back.target, back.newName))
  {
    UnheldStays(world, later, Norm(back.newName));
    UnheldIsPlanned(AfterAll(world, later), back.target, back.newName);
  }

  /** The engagement has a record of its own that names its client. */
  predicate Recorded(w: Workspace, c: string) {
    RecordClient(w.keys, c).Some? && RecordClient(w.keys, c).value != ""
  }

  lemma RecordStays(world: World, target: Target, newName: string, c: string)
    requires Plan(world, target, newName).Planned? && Recorded(world.w, c)
    ensures Recorded(Renamed(world.w, Plan(world, target, newName).job), c)
  {
    var j := Plan(world, target, newName).job;
    var v := world.w.keys[RecordKey(c)];
    assert RecordKey(c) in NewKeys(world.w, j);
    assert NewKeys(world.w, j)[RecordKey(c)] == Rewrite(world.w, RecordKey(c), v, j);
    if Ours(world.w, RecordKey(c), j) {
      assert SetName(v, j).fields["client"] == Text(newName);
      assert newName == "" ==> Norm(newName) == "";
    }
  }

  lemma {:induction false} RecordStaysThrough(world: World, rs: seq<Rename>, c: string)
    requires Recorded(world.w, c)
    ensures Recorded(AfterAll(world, rs).w, c)
    decreases |rs|
  {
    if rs != [] {
      if Plan(world, rs[0].target, rs[0].newName).Planned? {
        RecordStays(world, rs[0].target, rs[0].newName, c);
      }
      RecordStaysThrough(After(world, rs[0]), rs[1..], c);
    }
  }

  /**
   An engagement with a record that names its client can always go back: no run of renames, of whomever, can
   take that from it but one that takes the name itself.
   */
  lemma RenameBackIsPlanned(world: World, first: Rename, later: seq<Rename>, back: Rename)
    requires Plan(world, first.target, first.newName).Planned?
    requires Norm(back.newName) in Plan(world, first.target, first.newName).job.Stale()
    requires forall i | 0 <= i < |later| :: Norm(later[i].newName) != Norm(back.newName)
    requires back.target.code != "" && Recorded(world.w, back.target.code)
    ensures Plan(AfterAll(After(world, first), later), back.target, back.newName).Planned?
  {
    LeavingLeavesUnheld(world, first, Norm(back.newName));
    UnheldStays(After(world, first), later, Norm(back.newName));
    RecordStays(world, first.target, first.newName, back.target.code);
    RecordStaysThrough(After(world, first), later, back.target.code);
    RecordedIsPlanned(AfterAll(After(world, first), later), back.target, back.newName);
  }

  lemma RecordedIsPlanned(world: World, target: Target, newName: string)
    requires Unheld(world, Norm(newName)) && Norm(newName) != "" && target.code != "" && Recorded(world.w, target.code)
    ensures Plan(world, target, newName).Planned?
  {
    UnheldIsPlanned(world, target, newName);
  }

  /** The new norm is bound to the rename's own code, over whatever it was bound to before. */
  predicate Rebinds(es: seq<Entry>, j: Job) {
    j.code.Some? && exists e :: e in es && EntryOurs(e, j)
  }

  /** The entry is neither dropped as one of ours nor in the place the rename's own entry takes. */
  predicate Kept(es: seq<Entry>, j: Job, e: Entry) {
    if e.norm == j.NewNorm() then !Rebinds(es, j) else !EntryOurs(e, j)
  }

  lemma {:induction false} BindTakesThePlace(es: seq<Entry>, n: string, c: string)
    requires DistinctNorms(es)
    ensures forall e :: e in Bind(es, n, c) ==> e == Entry(n, c) || e.norm != n
  {
    if es != [] && es[0].norm != n {
      BindTakesThePlace(es[1..], n, c);
    }
  }

  lemma {:induction false} DroppedAreDistinct(es: seq<Entry>, j: Job)
    requires DistinctNorms(es)
    ensures DistinctNorms(DropOurs(es, j))
  {
    if es != [] {
      var init := es[..|es| - 1];
      DroppedAreDistinct(init, j);
      DroppedMembers(init, j);
      forall e | e in DropOurs(init, j) ensures e.norm != es[|es| - 1].norm {
        var i :| 0 <= i < |init| && init[i] == e;
        assert es[i] == e;
      }
    }
  }

  /** An engagement is still known after a rename exactly when it has a record, is the one renamed and was indexed, or keeps an entry. */
  lemma CodeStaysKnown(w: Workspace, j: Job, c: string)
    requires DistinctNorms(Entries(w))
    ensures CodeKnown(Renamed(w, j), c) <==>
            || RecordKey(c) in w.keys
            || (j.code == Some(c) && Rebinds(Entries(w), j))
            || exists e :: e in Entries(w) && e.code == c && Kept(Entries(w), j, e)
  {
    var es := Entries(w);
    var after := Renamed(w, j);
    assert RecordKey(c) in after.keys <==> RecordKey(c) in w.keys;
    DroppedMembers(es, j);
    DroppedAreDistinct(es, j);
    if Rebinds(es, j) {
      BindMembers(DropOurs(es, j), j.NewNorm(), j.code.value);
      BindTakesThePlace(DropOurs(es, j), j.NewNorm(), j.code.value);
    }
  }

  /** The index has one client, under an engagement without a record; another engagement's record names the same client. */
  function OneClientTwice(): World {
    World(Workspace(Some([Entry("acme", "X-1")]), None, None, None, map[RecordKey("Y-1") := Doc(map["client" := Text("acme")])]), [], [], map[])
  }

  lemma NormOfNothing()
    ensures NormsOfName("") == {}
  {
  }

  lemma SharedNorm()
    ensures ResolveCode(OneClientTwice().w, Target("Y-1", "")) == Some("Y-1")
    ensures OwnedNorms(OneClientTwice().w, Some("Y-1"), "") == {"acme"}
  {
    var w := OneClientTwice().w;
    NormOfNothing();
    NormFixed("acme");
    LegacyFromNorm("acme");
    assert NormsOfName("acme") == {"acme"};
    assert Entries(w) == [Entry("acme", "X-1")];
    assert w.keys[RecordKey("Y-1")] == Doc(map["client" := Text("acme")]);
  }

  lemma NamedCodeIsPlanned(world: World, target: Target, newName: string, matched: set<string>)
    requires Norm(newName) != "" && !Taken(world, Widened(world, matched), Norm(newName))
    requires target.code != "" && ResolveCode(world.w, target) == Some(target.code)
    requires matched == OwnedNorms(world.w, Some(target.code), target.name) != {}
    ensures var o := Plan(world, target, newName);
            o.Planned? && o.job.norms == Widened(world, matched) && o.job.code == Some(target.code) && o.job.newName == newName
  {
  }

  lemma OtherRenameIsPlanned()
    ensures var o := Plan(OneClientTwice(), Target("Y-1", ""), "beta");
            o.Planned? && o.job.norms == {"acme"} && o.job.code == Some("Y-1") && o.job.newName == "beta"
  {
    SharedNorm();
    NormFixed("beta");
    assert Entries(OneClientTwice().w) == [Entry("acme", "X-1")];
    assert Unheld(OneClientTwice(), "beta");
    assert Widened(OneClientTwice(), {"acme"}) == {"acme"};
    UnheldIsNotTaken(OneClientTwice(), {"acme"}, "beta");
    NamedCodeIsPlanned(OneClientTwice(), Target("Y-1", ""), "beta", {"acme"});
  }

  lemma OnlyEntryGoes(j: Job)
    requires j.norms == {"acme"} && j.code == Some("Y-1") && j.newName == "beta"
    ensures NewIndex([Entry("acme", "X-1")], j) == [Entry("beta", "Y-1")]
  {
    NormFixed("beta");
    var es := [Entry("acme", "X-1")];
    assert EntryOurs(es[0], j) && es[0] in es;
    assert es[..0] == [];
    assert DropOurs(es, j) == [];
  }

  /**
   An engagement without a record is forgotten: another one, whose record says the same client, is renamed, and
   the only index entry of the first goes with it. Going back is then refused, though nobody took the name.
   */
  lemma ForgottenCodeCannotGoBack()
    ensures var first := Rename(Target("Y-1", ""), "beta");
            && Plan(OneClientTwice(), first.target, first.newName).Planned?
            && "acme" in Plan(OneClientTwice(), first.target, first.newName).job.Stale()
            && Plan(OneClientTwice(), Target("X-1", ""), "acme") != Refused(UnknownEngagement)
            && Plan(After(OneClientTwice(), first), Target("X-1", ""), "acme") == Refused(UnknownEngagement)
  {
    OtherRenameIsPlanned();
    NormFixed("acme");
    NormFixed("beta");
    KnownByEntry("acme");
    AfterIsRenamed(OneClientTwice(), Rename(Target("Y-1", ""), "beta"));
    EntryIsForgotten(OneClientTwice().w, Plan(OneClientTwice(), Target("Y-1", ""), "beta").job);
    UnknownIsRefused(After(OneClientTwice(), Rename(Target("Y-1", ""), "beta")), "X-1", "acme");
  }

  lemma AfterIsRenamed(world: World, r: Rename)
    requires Plan(world, r.target, r.newName).Planned?
    ensures After(world, r).w == Renamed(world.w, Plan(world, r.target, r.newName).job)
  {
  }

  lemma EntryIsForgotten(w: Workspace, j: Job)
    requires w == OneClientTwice().w && j.norms == {"acme"} && j.code == Some("Y-1") && j.newName == "beta"
    ensures !CodeKnown(Renamed(w, j), "X-1")
  {
    OnlyEntryGoes(j);
    assert Entries(Renamed(w, j)) == [Entry("beta", "Y-1")];
    assert RecordKey("X-1") !in Renamed(w, j).keys;
  }

  lemma KnownByEntry(newName: string)
    ensures Plan(OneClientTwice(), Target("X-1", ""), newName) != Refused(UnknownEngagement)
  {
    LastIndexedNamed(Entries(OneClientTwice().w), "X-1");
    assert Entry("acme", "X-1") in Entries(OneClientTwice().w);
  }

  lemma UnknownIsRefused(world: World, c: string, newName: string)
    requires c != "" && Norm(newName) != "" && !CodeKnown(world.w, c)
    ensures Plan(world, Target(c, ""), newName) == Refused(UnknownEngagement)
  {
    LastIndexedNamed(Entries(world.w), c);
  }

  /** The engagement is still found by its code, under the new norm, so it can be renamed again. */
  lemma CodeIsStillFound(world: World, target: Target, newName: string)
    requires Plan(world, target, newName).Planned? && target.code != ""
    ensures var after := Renamed(world.w, Plan(world, target, newName).job);
            && ResolveCode(after, Target(target.code, newName)) == Some(target.code)
            && Norm(newName) in OwnedNorms(after, Some(target.code), newName)
  {
    var j := Plan(world, target, newName).job;
    var w := world.w;
    var after := Renamed(w, j);
    NoStaleEntry(Entries(w), j);
    if RecordKey(target.code) in w.keys {
      assert RecordKey(target.code) in after.keys;
    } else {
      LastIndexedIsThere(Entries(w), target.code);
      var e :| e in Entries(w) && e.code == target.code;
      assert EntryOurs(e, j);
      LastIndexedNamed(Entries(after), target.code);
    }
  }

  /** The index holds at most one norm for the code after the rename: the new one. */
  lemma OneNormPerCode(world: World, target: Target, newName: string, e: Entry)
    requires Plan(world, target, newName).Planned?
    requires e in Entries(Renamed(world.w, Plan(world, target, newName).job))
    requires Plan(world, target, newName).job.code == Some(e.code)
    ensures e.norm == Norm(newName)
  {
    NoStaleEntry(Entries(world.w), Plan(world, target, newName).job);
  }

  lemma {:induction false} BoundAreDistinct(es: seq<Entry>, n: string, c: string)
    requires DistinctNorms(es)
    ensures DistinctNorms(Bind(es, n, c))
  {
    if es != [] && es[0].norm != n {
      var rest, put := es[1..], Bind(es[1..], n, c);
      BoundAreDistinct(rest, n, c);
      BindMembers(rest, n, c);
      forall e | e in put ensures e.norm != es[0].norm {
        if e != Entry(n, c) {
          var i :| 0 <= i < |rest| && rest[i] == e;
          assert es[i + 1] == e;
        }
      }
      ConsIsDistinct(es[0], put);
    }
  }

  lemma ConsIsDistinct(e: Entry, es: seq<Entry>)
    requires DistinctNorms(es) && forall f | f in es :: f.norm != e.norm
    ensures DistinctNorms([e] + es)
  {
  }

  /** A rename keeps each norm to one entry. */
  lemma RenameKeepsDistinct(w: Workspace, j: Job)
    requires DistinctNorms(Entries(w))
    ensures DistinctNorms(Entries(Renamed(w, j)))
  {
    DroppedAreDistinct(Entries(w), j);
    if j.code.Some? {
      BoundAreDistinct(DropOurs(Entries(w), j), j.NewNorm(), j.code.value);
    }
  }

  lemma SameNormSamePlace(es: seq<Entry>, i: nat, k: nat)
    requires DistinctNorms(es) && i < |es| && k < |es| && es[i].norm == es[k].norm
    ensures i == k
  {
  }

  /** So the code of a renamed engagement that was indexed, or another of whose norms was, has exactly one entry. */
  lemma OneEntryPerCode(world: World, target: Target, newName: string, i: nat, k: nat)
    requires Plan(world, target, newName).Planned? && DistinctNorms(Entries(world.w))
    requires var es, c := Entries(Renamed(world.w, Plan(world, target, newName).job)), Plan(world, target, newName).job.code;
             i < |es| && k < |es| && c == Some(es[i].code) && c == Some(es[k].code)
    ensures i == k
  {
    var j := Plan(world, target, newName).job;
    var es := Entries(Renamed(world.w, j));
    RenameKeepsDistinct(world.w, j);
    OneNormPerCode(world, target, newName, es[i]);
    OneNormPerCode(world, target, newName, es[k]);
    SameNormSamePlace(es, i, k);
  }

  /**
   Which entries a rename drops. Besides those of its own code, exactly those whose norm is among the
   names found: the caller's name, what the index and the record give the code, and the rows that match any of
   these. Whose entry it is does not count, so the name a caller sends alongside a code decides it too.
   */
  lemma NamedClientIsSwept(world: World, target: Target, newName: string, e: Entry)
    requires Plan(world, target, newName).Planned?
    requires e in Entries(world.w) && e.norm != Norm(newName)
    ensures var j := Plan(world, target, newName).job;
            && (e !in Entries(Renamed(world.w, j)) <==>
                  j.code == Some(e.code) || e.norm in Widened(world, OwnedNorms(world.w, ResolveCode(world.w, target), target.name)))
            && (e.norm == Norm(target.name) && e.norm != "" ==> e !in Entries(Renamed(world.w, j)))
  {
    NoStaleEntry(Entries(world.w), Plan(world, target, newName).job);
  }

  /** Two clients, each with an engagement that only the index knows. */
  function TwoClients(): World {
    World(Workspace(Some([Entry("acme", "X-1"), Entry("beta", "Y-1")]), None, None, None, map[]), [], [], map[])
  }

  lemma TwoClientsNorms()
    ensures ResolveCode(TwoClients().w, Target("X-1", "beta")) == Some("X-1")
    ensures OwnedNorms(TwoClients().w, Some("X-1"), "beta") == {"acme", "beta"}
  {
    var w := TwoClients().w;
    var a, b := Entry("acme", "X-1"), Entry("beta", "Y-1");
    NormFixed("beta");
    LegacyFromNorm("beta");
    assert NormsOfName("beta") == {"beta"};
    assert Entries(w) == [a, b] && a in Entries(w);
    LastIndexedNamed(Entries(w), "X-1");
    assert forall e :: e in Entries(w) <==> e == a || e == b;
    assert NormsOfCode(w, "X-1") == {"acme"};
  }

  lemma TwoClientsPlan()
    ensures var o := Plan(TwoClients(), Target("X-1", "beta"), "gamma"); o.Planned? && o.job.norms == {"acme", "beta"} && o.job.code == Some("X-1")
  {
    TwoClientsNorms();
    NormFixed("gamma");
    assert Entries(TwoClients().w) == [Entry("acme", "X-1"), Entry("beta", "Y-1")];
    assert Unheld(TwoClients(), "gamma");
    assert Widened(TwoClients(), {"acme", "beta"}) == {"acme", "beta"};
    UnheldIsNotTaken(TwoClients(), {"acme", "beta"}, "gamma");
    NamedCodeIsPlanned(TwoClients(), Target("X-1", "beta"), "gamma", {"acme", "beta"});
  }

  lemma BothEntriesGo(j: Job)
    requires j.norms == {"acme", "beta"} && j.code == Some("X-1") && j.NewNorm() == "gamma"
    ensures NewIndex([Entry("acme", "X-1"), Entry("beta", "Y-1")], j) == [Entry("gamma", "X-1")]
  {
    var a, b := Entry("acme", "X-1"), Entry("beta", "Y-1");
    var es := [a, b];
    assert es[..1] == [a] && [a][..0] == [];
    assert DropOurs([a], j) == [];
    assert DropOurs(es, j) == [];
    assert a in es && EntryOurs(a, j);
  }

  lemma AnothersEntryGoes(w: Workspace, j: Job)
    requires w == TwoClients().w && j.norms == {"acme", "beta"} && j.code == Some("X-1") && j.NewNorm() == "gamma"
    ensures Entry("beta", "Y-1") !in Entries(Renamed(w, j)) && !CodeKnown(Renamed(w, j), "Y-1")
  {
    BothEntriesGo(j);
    assert Entries(Renamed(w, j)) == [Entry("gamma", "X-1")];
    assert RecordKey("Y-1") !in Renamed(w, j).keys;
  }

  /** A page that still holds another client's name renames one engagement, and the other client's entry goes. */
  lemma StaleNameDropsAnothersEntry()
    ensures var o := Plan(TwoClients(), Target("X-1", "beta"), "gamma");
            && o.Planned? && Entry("beta", "Y-1") in Entries(TwoClients().w)
            && Entry("beta", "Y-1") !in Entries(Renamed(TwoClients().w, o.job)) && !CodeKnown(Renamed(TwoClients().w, o.job), "Y-1")
  {
    TwoClientsPlan();
    NormFixed("gamma");
    assert Entries(TwoClients().w)[1] == Entry("beta", "Y-1");
    var o := Plan(TwoClients(), Target("X-1", "beta"), "gamma");
    PlanKeepsName(TwoClients(), Target("X-1", "beta"), "gamma");
    AnothersEntryGoes(TwoClients().w, o.job);
  }

  lemma PlanKeepsName(world: World, target: Target, newName: string)
    requires Plan(world, target, newName).Planned?
    ensures Plan(world, target, newName).job.newName == newName
  {
  }

  /**
   The same of the keys addressed by a norm: they leave their place exactly when the norm is among the names found
   and does not read as a code for which the key is left where it is.
   */
  lemma NamedKeysAreSwept(world: World, target: Target, newName: string, k: Key)
    requires Plan(world, target, newName).Planned?
    requires k in world.w.keys && NormAddressed(k) && k.seg.id.norm != Norm(newName)
    ensures var j := Plan(world, target, newName).job;
            && (k !in Renamed(world.w, j).keys <==>
                  && k.seg.id.norm in Widened(world, OwnedNorms(world.w, ResolveCode(world.w, target), target.name))
                  && !LeftAsCode(world.w, j, k))
            && (k.seg.id.norm == Norm(target.name) && k.seg.id.norm != "" && !LeftAsCode(world.w, j, k) ==> k !in Renamed(world.w, j).keys)
  {
    var j := Plan(world, target, newName).job;
    NoStaleKey(world.w, j, k);
    if k in Destinations(world.w, j) {
      DestinationIsNew(world.w, k, j);
    }
  }
}
