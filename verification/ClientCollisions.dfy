/**
 When a rename is refused, and what that keeps: no run of renames moves a client onto a name that another
 client's index entry, row or assignment holds.
 */
module ClientCollisions {
  import opened ClientNames
  import opened ClientScope
  import opened ClientRename
  import opened ClientRenameProofs
  import opened Options

  // ---------- Who holds a norm ----------

  predicate LastUnder(es: seq<Entry>, i: int, n: string) {
    0 <= i < |es| && es[i].norm == n && forall k | i < k < |es| :: es[k].norm != n
  }

  /** The last index entry under the norm has a code. */
  ghost predicate HeldByEntry(es: seq<Entry>, n: string) {
    exists i :: LastUnder(es, i, n) && es[i].code != ""
  }

  ghost predicate HeldByRow(rows: seq<Row>, n: string) {
    exists i :: 0 <= i < |rows| && Norm(rows[i].name) == n
  }

  /** Somebody is assigned the norm, or another that is not among `norms` under a name that has this norm. */
  ghost predicate HeldByAssignment(assignments: map<(string, string), string>, norms: set<string>, n: string) {
    exists user, m :: (user, m) in assignments && m !in norms && (m == n || Norm(assignments[(user, m)]) == n)
  }

  ghost predicate Held(world: World, norms: set<string>, n: string) {
    || HeldByEntry(Entries(world.w), n)
    || HeldByRow(world.engagements, n)
    || HeldByRow(world.interviews, n)
    || HeldByAssignment(world.assignments, norms, n)
  }

  /** The norms a request is found to be about: those of its name and its code, and of the rows that match one of these. */
  function Found(world: World, target: Target): set<string> {
    Widened(world, OwnedNorms(world.w, ResolveCode(world.w, target), target.name))
  }

  lemma {:induction false} EntryForIsLast(es: seq<Entry>, n: string)
    ensures EntryFor(es, n).Some? ==> exists i :: LastUnder(es, i, n) && es[i].code == EntryFor(es, n).value
    ensures EntryFor(es, n).None? ==> forall i | 0 <= i < |es| :: es[i].norm != n
  {
    if es != [] {
      var init, l := es[..|es| - 1], |es| - 1;
      if es[l].norm == n {
        assert LastUnder(es, l, n);
      } else {
        EntryForIsLast(init, n);
        assert forall i | 0 <= i < l :: init[i] == es[i];
        if EntryFor(init, n).Some? {
          var i :| LastUnder(init, i, n) && init[i].code == EntryFor(init, n).value;
          assert LastUnder(es, i, n);
        }
      }
    }
  }

  lemma LastUnderNorm(es: seq<Entry>, n: string)
    ensures HeldByEntry(es, n) <==> EntryFor(es, n).Some? && EntryFor(es, n).value != ""
  {
    EntryForIsLast(es, n);
    forall i, k | LastUnder(es, i, n) && LastUnder(es, k, n) ensures i == k { }
  }

  lemma TakenIsHeld(world: World, norms: set<string>, n: string)
    requires n != ""
    ensures Taken(world, norms, n) <==> Held(world, norms, n)
  {
    LastUnderNorm(Entries(world.w), n);
    if a :| a in world.assignments && a.1 !in norms && (a.1 == n || Norm(world.assignments[a]) == n) {
      assert (a.0, a.1) == a;
    }
  }

  // ---------- Every refusal ----------

  /** Nothing in the workspace, and no row, is named as the request says. */
  ghost predicate NothingThere(world: World, target: Target, newName: string)
    requires OwnedNorms(world.w, ResolveCode(world.w, target), target.name) != {}
  {
    && ResolveCode(world.w, target).None?
    && (forall r | r in world.engagements :: !RowMatches(r, OwnedNorms(world.w, None, target.name)))
    && (forall r | r in world.interviews :: !RowMatches(r, Found(world, target)))
    && Renamed(world.w, JobFor(world, target, newName)) == world.w
  }

  /** The reason, from the request and the world: each in its turn, and a plan only where there is none. */
  ghost function RefusalOf(world: World, target: Target, newName: string): Option<Reason> {
    var n, found := Norm(newName), Found(world, target);
    if n == "" then Some(InvalidInput)
    else if target.code != "" && !CodeKnown(world.w, target.code) then Some(UnknownEngagement)
    else if !HasNorm(world.w, ResolveCode(world.w, target), target.name) then Some(UnknownClient)
    else if OwnedNorms(world.w, ResolveCode(world.w, target), target.name) == {} then Some(UnknownClient)
    else if n in found then None
    else if Held(world, found, n) then Some(Collision)
    else if NothingThere(world, target, newName) then Some(NothingNamed)
    else None
  }

  /** A rename is refused for exactly these reasons. */
  lemma RefusedExactly(world: World, target: Target, newName: string)
    ensures var o := Plan(world, target, newName);
            match RefusalOf(world, target, newName)
            case None => o.Planned? && o.job.newName == newName && o.job.norms == Found(world, target) && o.job.code == ResolveCode(world.w, target)
            case Some(r) => o == Refused(r)
  {
    LastIndexedNamed(Entries(world.w), target.code);
    OwnedIsNamed(world.w, ResolveCode(world.w, target), target.name);
    if Norm(newName) != "" {
      TakenIsHeld(world, Found(world, target), Norm(newName));
    }
  }

  /**
   A rename onto a name that somebody else holds is refused: with the norm outside those the request is found to be
   about, for a collision exactly where an index entry, a row or an assignment of another's holds it.
   */
  lemma HeldIsRefused(world: World, target: Target, newName: string)
    requires Norm(newName) != "" && Norm(newName) !in Found(world, target)
    requires target.code != "" ==> CodeKnown(world.w, target.code)
    requires HasNorm(world.w, ResolveCode(world.w, target), target.name)
    ensures Plan(world, target, newName) == Refused(Collision) <==> Held(world, Found(world, target), Norm(newName))
  {
    OwnedIsNamed(world.w, ResolveCode(world.w, target), target.name);
    RefusedExactly(world, target, newName);
  }

  // ---------- Runs ----------

  /** What is under a norm: its index entries, its rows and its assignments. */
  datatype Holding = Holding(entries: set<Entry>, engagements: set<Row>, interviews: set<Row>, assignments: map<(string, string), string>)

  function Under(world: World, n: string): Holding {
    Holding(set e | e in Entries(world.w) && e.norm == n,
            set r | r in world.engagements && Norm(r.name) == n,
            set r | r in world.interviews && Norm(r.name) == n,
            map a | a in world.assignments && a.1 == n :: world.assignments[a])
  }

  /** Something of it is alive: an entry with a code, a row or an assignment. */
  predicate Alive(h: Holding) {
    (exists e :: e in h.entries && e.code != "") || h.engagements != {} || h.interviews != {} || h.assignments != map[]
  }

  /** The request is about the norm: it is found, or its first thirty characters are, or an assignment of it has a name that is. */
  predicate About(world: World, target: Target, n: string) {
    var found := Found(world, target);
    n in found || Take(n, LEGACY_NORM_MAX) in found || n in AssignedNorms(world.assignments, found)
  }

  lemma AliveIsHeld(world: World, norms: set<string>, n: string)
    requires n != "" && n !in norms && DistinctNorms(Entries(world.w)) && Alive(Under(world, n))
    ensures Held(world, norms, n)
  {
    var h, es := Under(world, n), Entries(world.w);
    if e :| e in h.entries && e.code != "" {
      var i :| 0 <= i < |es| && es[i] == e;
      assert LastUnder(es, i, n);
    } else if h.engagements != {} {
      var r :| r in h.engagements;
      var i :| 0 <= i < |world.engagements| && world.engagements[i] == r;
    } else if h.interviews != {} {
      var r :| r in h.interviews;
      var i :| 0 <= i < |world.interviews| && world.interviews[i] == r;
    } else {
      var a :| a in h.assignments;
      assert (a.0, a.1) in world.assignments && a.1 !in norms;
    }
  }

  lemma EntriesUnderStay(w: Workspace, j: Job, n: string)
    requires n != j.NewNorm() && n !in j.norms && forall e | e in Entries(w) && e.norm == n :: j.code != Some(e.code)
    ensures (set e | e in Entries(Renamed(w, j)) && e.norm == n) == set e | e in Entries(w) && e.norm == n
  {
    NoStaleEntry(Entries(w), j);
    NewEntriesNorms(Entries(w), j);
  }

  lemma RowsUnderStay(rows: seq<Row>, norms: set<string>, newName: string, n: string)
    requires n != Norm(newName) && n !in norms && Take(n, LEGACY_NORM_MAX) !in norms
    ensures (set r | r in NewRows(rows, norms, newName) && Norm(r.name) == n) == set r | r in rows && Norm(r.name) == n
  {
    var after := NewRows(rows, norms, newName);
    NewRowsNames(rows, norms, newName);
    forall r | r in rows && Norm(r.name) == n ensures r in after {
      LegacyFromNorm(r.name);
      var i :| 0 <= i < |rows| && rows[i] == r;
      assert after[i] == r;
    }
  }

  lemma AssignmentsUnderStay(assignments: map<(string, string), string>, j: Job, n: string)
    requires n != j.NewNorm() && n !in AssignedNorms(assignments, j.norms)
    ensures (map a | a in NewAssignments(assignments, j) && a.1 == n :: NewAssignments(assignments, j)[a]) ==
            map a | a in assignments && a.1 == n :: assignments[a]
  {
  }

  /** A code of ours has only norms of ours. */
  lemma OwnCodeIsFound(world: World, target: Target, e: Entry)
    requires e in Entries(world.w) && ResolveCode(world.w, target) == Some(e.code) && e.norm != ""
    ensures e.norm in Found(world, target)
  {
    assert e.norm in NormsOfCode(world.w, e.code);
  }

  lemma OwnedIsFound(world: World, target: Target)
    ensures OwnedNorms(world.w, ResolveCode(world.w, target), target.name) <= Found(world, target)
  {
  }

  lemma OneRenameKeeps(world: World, r: Rename, n: string)
    requires n != "" && DistinctNorms(Entries(world.w)) && Alive(Under(world, n)) && !About(world, r.target, n)
    ensures Under(After(world, r), n) == Under(world, n) && DistinctNorms(Entries(After(world, r).w))
  {
    RefusedExactly(world, r.target, r.newName);
    var o := Plan(world, r.target, r.newName);
    if o.Planned? {
      var j := o.job;
      AliveIsHeld(world, j.norms, n);
      assert n != j.NewNorm();
      forall e | e in Entries(world.w) && e.norm == n ensures j.code != Some(e.code) {
        if j.code == Some(e.code) { OwnCodeIsFound(world, r.target, e); }
      }
      PlanMatches(world, r.target, r.newName);
      OwnedIsFound(world, r.target);
      EntriesUnderStay(world.w, j, n);
      RowsUnderStay(world.engagements, o.matched, r.newName, n);
      RowsUnderStay(world.interviews, j.norms, r.newName, n);
      AssignmentsUnderStay(world.assignments, j, n);
      RenameKeepsDistinct(world.w, j);
    }
  }

  lemma PlanMatches(world: World, target: Target, newName: string)
    requires Plan(world, target, newName).Planned?
    ensures Plan(world, target, newName).matched == OwnedNorms(world.w, ResolveCode(world.w, target), target.name)
  {
  }

  /** None of the run's requests is about the norm when its turn comes. */
  predicate NeverAbout(world: World, rs: seq<Rename>, n: string)
    decreases |rs|
  {
    rs == [] || (!About(world, rs[0].target, n) && NeverAbout(After(world, rs[0]), rs[1..], n))
  }

  /**
   Nobody is moved onto somebody else. Over any run of renames none of which is about the client, whatever names
   they are to, what a live client has under its norm is at the end exactly what it was: no entry, row or assignment of
   its own is gone or changed, and none of anybody else's has come to be under its norm.
   */
  lemma {:induction false} HeldIsKept(world: World, rs: seq<Rename>, n: string)
    requires n != "" && DistinctNorms(Entries(world.w)) && Alive(Under(world, n)) && NeverAbout(world, rs, n)
    ensures Under(AfterAll(world, rs), n) == Under(world, n)
    decreases |rs|
  {
    if rs != [] {
      OneRenameKeeps(world, rs[0], n);
      HeldIsKept(After(world, rs[0]), rs[1..], n);
    }
  }

  /** With another's name for its new one, a rename by code alone is refused. */
  lemma AnothersNameIsRefused()
    ensures Plan(TwoClients(), Target("X-1", ""), "beta") == Refused(Collision)
  {
    var w, a, b := TwoClients().w, Entry("acme", "X-1"), Entry("beta", "Y-1");
    NormFixed("beta");
    NormOfNothing();
    assert Entries(w) == [a, b] && a in Entries(w);
    assert forall e :: e in Entries(w) <==> e == a || e == b;
    LastIndexedNamed(Entries(w), "X-1");
    assert NormsOfCode(w, "X-1") == {"acme"};
    assert Found(TwoClients(), Target("X-1", "")) == {"acme"};
    assert HasNorm(w, Some("X-1"), "");
    assert HeldByEntry(Entries(w), "beta") by { assert LastUnder(Entries(w), 1, "beta"); }
    HeldIsRefused(TwoClients(), Target("X-1", ""), "beta");
  }
}
