/**
 What a rename writes into a value: the client's new name where the client was named, and nothing else.
 */
module ClientFields {
  import opened ClientNames
  import opened ClientScope
  import opened ClientRename
  import opened ClientRenameProofs
  import opened Options

  /** The field is one for the client's name, or its text is one of the names. */
  predicate NamesUs(name: string, f: Field, norms: set<string>) {
    f.Text? && (name == "client" || name == "clientName" || (f.s != "" && Norm(f.s) in norms))
  }

  /** Of the fields, those that name us have the new name, and all others are as they were. */
  ghost predicate OnlyNames(before: Fields, after: Fields, norms: set<string>, newName: string) {
    && after.Keys == before.Keys
    && forall f | f in before :: after[f] == if NamesUs(f, before[f], norms) then Text(newName) else before[f]
  }

  ghost predicate Written(before: Value, after: Value, j: Job) {
    after == before || (before.Doc? && after.Doc? && OnlyNames(before.fields, after.fields, j.norms, j.newName))
  }

  /** Where the value of a key comes from: the key itself, or one of ours that moves there. */
  predicate ComesFrom(w: Workspace, j: Job, k: Key, from: Key) {
    from in w.keys && (from == k || (Moving(w, from, j) && k == At(from, j.NewNorm())))
  }

  lemma SetNameWrites(v: Value, j: Job)
    ensures Written(v, SetName(v, j), j)
  {
    if v.Doc? {
      assert OnlyNames(v.fields, SetName(v, j).fields, j.norms, j.newName);
    }
  }

  /** A rename makes no value up and takes nothing from one: each is an earlier value with only names written in. */
  lemma OnlyNamesChange(w: Workspace, j: Job, k: Key)
    requires k in NewKeys(w, j) && !k.LastBriefing? && !k.Snapshots?
    ensures exists from :: ComesFrom(w, j, k, from) && Written(w.keys[from], NewKeys(w, j)[k], j)
  {
    if k in Destinations(w, j) && !Overlaid(w, k, j) {
      DestinationIsNew(w, k, j);
      MovedIsNamed(w, k, j);
      var n :| n in Rivals(w, k, j) && Moved(w, k, j) == SetName(w.keys[At(k, n)], j);
      SetNameWrites(w.keys[At(k, n)], j);
      assert ComesFrom(w, j, k, At(k, n)) by { assert At(At(k, n), j.NewNorm()) == k; }
    } else {
      SetNameWrites(w.keys[k], j);
      assert ComesFrom(w, j, k, k);
    }
  }

  /** In the last briefing a rename writes the client and its norm, and only if it was one of ours. */
  lemma BriefingKeepsTheRest(w: Workspace, j: Job)
    requires LastBriefing in w.keys
    ensures LastBriefing in NewKeys(w, j)
    ensures var before, after := w.keys[LastBriefing], NewKeys(w, j)[LastBriefing];
            if BriefingOurs(before, j)
            then after.Doc? && after.fields.Keys == before.fields.Keys + {"client", "normKey"}
                   && after.fields["client"] == Text(j.newName) && after.fields["normKey"] == Text(Norm(j.newName))
                   && forall f | f in before.fields && f != "client" && f != "normKey" :: after.fields[f] == before.fields[f]
            else after == before
  {
  }

  /** The snapshots stay as many and in their order, and in each a rename writes the client's name, if it was one of ours. */
  lemma SnapshotsKeepTheRest(w: Workspace, j: Job)
    requires Snapshots in w.keys
    ensures Snapshots in NewKeys(w, j)
    ensures var before, after := w.keys[Snapshots], NewKeys(w, j)[Snapshots];
            if before.Records?
            then after.Records? && |after.recs| == |before.recs|
                   && forall i | 0 <= i < |before.recs| :: SnapshotWritten(before.recs[i], after.recs[i], j)
            else after == before
  {
  }

  ghost predicate SnapshotWritten(before: Fields, after: Fields, j: Job) {
    && after.Keys == before.Keys
    && forall f | f in before :: after[f] == if f == "clientName" && before[f].Text? && Norm(before[f].s) in j.norms then Text(j.newName) else before[f]
  }

  // ---------- Runs ----------

  /** A field that no rename is about: not one for the client's name, and with no letter or digit in its text. */
  predicate Nameless(name: string, f: Field) {
    name != "client" && name != "clientName" && (f.Text? ==> Norm(f.s) == "")
  }

  predicate Holds(w: Workspace, k: Key, name: string, f: Field) {
    k in w.keys && w.keys[k].Doc? && name in w.keys[k].fields && w.keys[k].fields[name] == f
  }

  lemma CodeKeyStays(w: Workspace, j: Job, k: Key)
    requires k in w.keys && k.FamilyKey? && !NormAddressed(k)
    ensures k in NewKeys(w, j) && Written(w.keys[k], NewKeys(w, j)[k], j)
  {
    assert k !in Destinations(w, j) && k !in Deleted(w, j);
    OnlyNamesChange(w, j, k);
    SetNameWrites(w.keys[k], j);
  }

  /** What a record stored under a code says besides names, it says after any run of renames, of whomever. */
  lemma {:induction false} RunKeepsTheRest(world: World, rs: seq<Rename>, k: Key, name: string, f: Field)
    requires k.FamilyKey? && !NormAddressed(k) && Nameless(name, f) && Holds(world.w, k, name, f)
    ensures Holds(AfterAll(world, rs).w, k, name, f)
    decreases |rs|
  {
    if rs != [] {
      var o := Plan(world, rs[0].target, rs[0].newName);
      if o.Planned? {
        NormsAreNotEmpty(world, rs[0].target, rs[0].newName);
        CodeKeyStays(world.w, o.job, k);
      }
      RunKeepsTheRest(After(world, rs[0]), rs[1..], k, name, f);
    }
  }
}
