/**
 The loops that build the maps, filter the workspace, merge a write and rename the keys, each
 proved to compute what its specification says.
 */
module ClientLoops {
  import opened ClientNames
  import opened ClientScope
  import opened ClientRename
  import ClientRenameProofs
  import opened ClientIndexLoops
  import opened Options

  /** The table's codes first, then the index in order; the table's codes are never rebound. */
  method TableAndIndex(es: seq<Entry>, t: Trusted) returns (codes: map<string, string>)
    ensures forall c :: Get(codes, c) == if c in t then Some(Norm(t[c])) else LastIndexed(es, c)
  {
    codes := map c | c in t :: Norm(t[c]);
    var i := 0;
    while i < |es|
      invariant 0 <= i <= |es|
      invariant forall c :: Get(codes, c) == if c in t then Some(Norm(t[c])) else LastIndexed(es[..i], c)
    {
      if es[i].code !in t {
        codes := codes[es[i].code := es[i].norm];
      }
      assert es[..i + 1][..i] == es[..i];
      i := i + 1;
    }
    assert es[..i] == es;
  }

  /** An engagement's record overrides the index, and never the table. */
  method Records(keys: map<Key, Value>, t: Trusted, indexed: map<string, string>) returns (codes: map<string, string>)
    ensures forall c :: Get(codes, c) == if c in t then Get(indexed, c) else OrElse(RecordClient(keys, c), Get(indexed, c))
  {
    codes := indexed;
    var todo := keys.Keys;
    while todo != {}
      invariant todo <= keys.Keys
      invariant forall c :: Get(codes, c) ==
                  if c in t || RecordKey(c) in todo then Get(indexed, c) else OrElse(RecordClient(keys, c), Get(indexed, c))
      decreases |todo|
    {
      var k :| k in todo;
      var client := ClientNorm(keys[k]);
      if IsRecord(k) && client.Some? && k.seg.id.code !in t {
        codes := codes[k.seg.id.code := client.value];
      }
      todo := todo - {k};
    }
  }

  method Sessions(keys: map<Key, Value>) returns (sessions: map<string, string>)
    ensures forall s :: Get(sessions, s) == SessionClient(keys, s)
  {
    sessions := map[];
    var todo := keys.Keys;
    while todo != {}
      invariant todo <= keys.Keys
      invariant forall s :: Get(sessions, s) == if Session(s) in todo then None else SessionClient(keys, s)
      decreases |todo|
    {
      var k :| k in todo;
      var client := ClientNorm(keys[k]);
      if k.Session? && client.Some? {
        sessions := sessions[k.id := client.value];
      }
      todo := todo - {k};
    }
  }

  method BuildWorkspaceMaps(w: Workspace, t: Trusted) returns (m: Maps)
    ensures m == BuildMaps(w, t)
  {
    var indexed := TableAndIndex(Entries(w), t);
    var codes := Records(w.keys, t, indexed);
    var sessions := Sessions(w.keys);
    m := Maps(codes, sessions);
    MapsAreOwners(w, t);
    SameMap(codes, BuildMaps(w, t).codes);
    SameMap(sessions, BuildMaps(w, t).sessions);
  }

  lemma SameMap(a: map<string, string>, b: map<string, string>)
    requires forall k :: Get(a, k) == Get(b, k)
    ensures a == b
  {
    forall k
      ensures k in a <==> k in b
      ensures k in a ==> a[k] == b[k]
    {
      assert Get(a, k) == Get(b, k);
    }
  }

  method FilterIndex(es: seq<Entry>, allowed: set<string>, keep: bool) returns (f: seq<Entry>)
    ensures f == FilterEntries(es, allowed, keep)
  {
    f := [];
    for i := 0 to |es|
      invariant f == FilterEntries(es[..i], allowed, keep)
    {
      assert es[..i + 1][..i] == es[..i];
      if Has(allowed, es[i].norm) == keep {
        f := f + [es[i]];
      }
    }
    assert es[..|es|] == es;
  }

  /** The keys a restricted caller is shown, one by one; anything unresolved is dropped. */
  method FilterVisible(keys: map<Key, Value>, allowed: set<string>, m: Maps) returns (out: map<Key, Value>)
    ensures out == FilterKeys(keys, allowed, m)
  {
    out := map[];
    var todo := keys.Keys;
    while todo != {}
      invariant todo <= keys.Keys
      invariant forall k :: k in out <==> k in keys && k !in todo && Visible(Resolve(k, Some(keys[k]), m), allowed)
      invariant forall k :: k in out ==> out[k] == keys[k]
      decreases |todo|
    {
      var k :| k in todo;
      var who := Resolve(k, Some(keys[k]), m);
      if who.Firm? {
        out := out[k := keys[k]];
      } else if who.Client? && Has(allowed, who.norm) {
        out := out[k := keys[k]];
      }
      todo := todo - {k};
    }
  }

  method FilterWorkspaceState(w: Workspace, allowed: set<string>, t: Trusted) returns (out: Workspace)
    ensures out == Filter(w, allowed, t)
  {
    var m := BuildWorkspaceMaps(w, t);
    var es := FilterIndex(Entries(w), allowed, true);
    var codes := AddCodes(map[], OrEmpty(w.codeIndex), allowed, m, true);
    var metas := AddMissingMeta(map[], OrEmpty(w.roadmapIndex), allowed, m, true);
    var roadmap := FilterRoadmapState(RoadmapOf(w), allowed, m);
    var keys := FilterVisible(w.keys, allowed, m);
    OverNothing(FilterCodeIndex(OrEmpty(w.codeIndex), allowed, m, true));
    OverNothing(FilterRoadmapIndex(OrEmpty(w.roadmapIndex), allowed, m, true));
    out := Workspace(
      if w.index.Some? then Some(es) else None,
      if w.codeIndex.Some? then Some(codes) else None,
      if w.roadmapIndex.Some? then Some(metas) else None,
      if w.roadmap.Some? then Some(roadmap) else None,
      keys);
  }

  /** One incoming index entry: taken, or the server's own entry for that client kept, or dropped. */
  method AcceptIndexEntry(e: Entry, cur: Workspace, sets: Workspace, t: Trusted, allowed: set<string>) returns (r: seq<Entry>)
    ensures r == AcceptEntry(e, cur, sets, t, allowed)
  {
    if !Has(allowed, e.norm) { return []; }
    var owner := BindingOwner(cur, sets, t, e.code);
    if owner.Some? && Has(allowed, owner.value) { return [e]; }
    var existing := EntryFor(Entries(cur), e.norm);
    r := if existing.Some? then [Entry(e.norm, existing.value)] else [];
  }

  /** The server's entries for other clients, then the caller's own, each checked against the owner of its code. */
  method MergeEngagementIndex(cur: Workspace, sets: Workspace, t: Trusted, allowed: set<string>) returns (merged: seq<Entry>)
    ensures merged == MergeIndex(cur, sets, t, allowed)
  {
    merged := FilterIndex(Entries(cur), allowed, false);
    var es := Entries(sets);
    for i := 0 to |es|
      invariant merged == FilterEntries(Entries(cur), allowed, false) + AcceptEntries(es[..i], cur, sets, t, allowed)
    {
      assert es[..i + 1][..i] == es[..i];
      var accepted := AcceptIndexEntry(es[i], cur, sets, t, allowed);
      merged := merged + accepted;
    }
    assert es[..|es|] == es;
  }

  /** A delete is judged by what the server holds, not by what the request says. */
  method FilterDeletes(deletes: set<Key>, keys: map<Key, Value>, allowed: set<string>, m: Maps) returns (ok: set<Key>)
    ensures ok == set k | k in deletes && Visible(Resolve(k, KeyAt(keys, k), m), allowed)
  {
    ok := {};
    var todo := deletes;
    while todo != {}
      invariant todo <= deletes
      invariant ok == set k | k in deletes && k !in todo && Visible(Resolve(k, KeyAt(keys, k), m), allowed)
      decreases |todo|
    {
      var k :| k in todo;
      if Visible(Resolve(k, KeyAt(keys, k), m), allowed) {
        ok := ok + {k};
      }
      todo := todo - {k};
    }
  }

  /** The server's entries of other clients, then the caller's own over them. */
  method MergeCodes(cur: Workspace, sets: Workspace, allowed: set<string>, m: Maps) returns (merged: map<string, string>)
    ensures merged == MergeCodeIndex(cur, sets, allowed, m)
  {
    merged := AddCodes(map[], OrEmpty(cur.codeIndex), allowed, m, false);
    OverNothing(FilterCodeIndex(OrEmpty(cur.codeIndex), allowed, m, false));
    merged := AddCodes(merged, OrEmpty(sets.codeIndex), allowed, m, true);
  }

  /** Here what is preserved of the server's is never overwritten. */
  method MergeRoadmapEntries(cur: Workspace, sets: Workspace, allowed: set<string>, m: Maps) returns (merged: map<string, Meta>)
    ensures merged == MergeRoadmapIndex(cur, sets, allowed, m)
  {
    merged := AddMissingMeta(map[], OrEmpty(cur.roadmapIndex), allowed, m, false);
    OverNothing(FilterRoadmapIndex(OrEmpty(cur.roadmapIndex), allowed, m, false));
    merged := AddMissingMeta(merged, OrEmpty(sets.roadmapIndex), allowed, m, true);
  }

  method ScopeWorkspaceWrite(req: Change, cur: Workspace, allowed: set<string>, t: Trusted) returns (ok: Change)
    ensures ok == ScopeWrite(req, cur, allowed, t)
  {
    var sets := req.sets;
    var own := BuildWorkspaceMaps(cur, t);
    var incoming := BuildWorkspaceMaps(sets, map[]);
    var m := Extend(own, incoming);
    var index := MergeEngagementIndex(cur, sets, t, allowed);
    var codes := MergeCodes(cur, sets, allowed, m);
    var metas := MergeRoadmapEntries(cur, sets, allowed, m);
    var roadmap := MergeRoadmapState(RoadmapOf(cur), RoadmapOf(sets), allowed, m);
    var keys := FilterVisible(sets.keys, allowed, m);
    var deletes := FilterDeletes(req.deletes, cur.keys, allowed, m);
    ok := Change(
      Workspace(
        if sets.index.Some? then Some(index) else None,
        if sets.codeIndex.Some? then Some(codes) else None,
        if sets.roadmapIndex.Some? then Some(metas) else None,
        if sets.roadmap.Some? then Some(roadmap) else None,
        keys),
      deletes);
  }

  // ---------- The rename ----------

  predicate Grouped(w: Workspace, j: Job, d: Key, rivals: set<string>) {
    d in Destinations(w, j) && d.FamilyKey? && rivals == Rivals(w, d, j) && rivals != {}
  }

  /** Group the moving keys by destination, so that the copy that survives is chosen and not left to the order of the keys. */
  method CollectMoves(w: Workspace, j: Job) returns (moves: map<Key, set<string>>)
    ensures moves.Keys == Destinations(w, j)
    ensures forall d :: d in moves ==> Grouped(w, j, d, moves[d])
  {
    moves := map[];
    var todo := w.keys.Keys;
    while todo != {}
      invariant todo <= w.keys.Keys
      invariant forall d :: d in moves ==> NormAddressed(d) && d.seg.id.norm == j.NewNorm() && moves[d] != {}
      invariant forall d, n :: d in moves && n in moves[d] ==> n in j.norms && At(d, n) in w.keys && At(d, n) !in todo && !KnownCode(w, NormId(n))
      invariant forall k :: k in w.keys && k !in todo && Moving(w, k, j) ==>
                  At(k, j.NewNorm()) in moves && k.seg.id.norm in moves[At(k, j.NewNorm())]
      decreases |todo|
    {
      var k :| k in todo;
      if Moving(w, k, j) {
        var to := At(k, j.NewNorm());
        assert At(to, k.seg.id.norm) == k;
        var seen := if to in moves then moves[to] else {};
        moves := moves[to := seen + {k.seg.id.norm}];
      }
      todo := todo - {k};
    }
    forall d | d in moves ensures d in Destinations(w, j) && moves[d] == Rivals(w, d, j) {
      var n :| n in moves[d];
      var k := At(d, n);
      assert Moving(w, k, j) && At(k, j.NewNorm()) == d;
      forall x | x in Rivals(w, d, j) ensures x in moves[d] {
        var kx := At(d, x);
        assert Moving(w, kx, j) && At(kx, j.NewNorm()) == d;
      }
    }
  }

  /** What renaming the keys writes, removes and reports. */
  datatype KeyChanges = KeyChanges(sets: map<Key, Value>, deletes: set<Key>, debris: set<Key>)

  /** A destination is written by a move unless the value stays where it was and as it was. */
  ghost predicate Written(w: Workspace, j: Job, d: Key) {
    d in Destinations(w, j) && (d !in w.keys || Moved(w, d, j) != w.keys[d] || Winner(Rivals(w, d, j), j) != j.NewNorm())
  }

  ghost function SetsFor(w: Workspace, j: Job, ds: set<Key>): map<Key, Value> {
    map d | d in Destinations(w, j) && d in ds && Written(w, j, d) :: Moved(w, d, j)
  }

  ghost function DeletesFor(w: Workspace, j: Job, ds: set<Key>): set<Key> {
    set k | k in Deleted(w, j) && At(k, j.NewNorm()) in ds
  }

  ghost function DebrisFor(w: Workspace, j: Job, ds: set<Key>): set<Key> {
    (set d | d in Destinations(w, j) && d in ds && d in w.keys && j.NewNorm() !in j.norms) +
    (set k | k in Deleted(w, j) && Beaten(w, k, j) && At(k, j.NewNorm()) in ds)
  }

  lemma SetsForOne(w: Workspace, j: Job, ds: set<Key>, d: Key)
    requires d in Destinations(w, j) && d.FamilyKey? && Rivals(w, d, j) != {}
    ensures var from := At(d, Winner(Rivals(w, d, j), j));
            var patched := SetName(w.keys[from], j);
            SetsFor(w, j, ds + {d}) == if d == from && patched == w.keys[from] then SetsFor(w, j, ds) - {d} else SetsFor(w, j, ds)[d := patched]
  {
    DestinationIsWritten(w, j, d);
    SetsForGrow(w, j, ds, d);
  }

  lemma DestinationIsWritten(w: Workspace, j: Job, d: Key)
    requires d in Destinations(w, j) && d.FamilyKey? && Rivals(w, d, j) != {}
    ensures var from := At(d, Winner(Rivals(w, d, j), j));
            && Moved(w, d, j) == SetName(w.keys[from], j)
            && (!Written(w, j, d) <==> d == from && Moved(w, d, j) == w.keys[from])
  {
    ClientRenameProofs.DestinationIsNew(w, d, j);
    assert At(d, j.NewNorm()) == d;
  }

  lemma SetsForGrow(w: Workspace, j: Job, ds: set<Key>, d: Key)
    requires d in Destinations(w, j)
    ensures SetsFor(w, j, ds + {d}) == if Written(w, j, d) then SetsFor(w, j, ds)[d := Moved(w, d, j)] else SetsFor(w, j, ds) - {d}
  {
  }

  lemma DeletesForOne(w: Workspace, j: Job, ds: set<Key>, d: Key)
    requires d in Destinations(w, j) && d.FamilyKey?
    ensures DeletesFor(w, j, ds + {d}) == DeletesFor(w, j, ds) + set n | n in Rivals(w, d, j) && n != j.NewNorm() :: At(d, n)
  {
    ClientRenameProofs.DestinationIsNew(w, d, j);
    var gone := set n | n in Rivals(w, d, j) && n != j.NewNorm() :: At(d, n);
    forall k | k in DeletesFor(w, j, ds + {d}) && k !in DeletesFor(w, j, ds) ensures k in gone {
      assert At(d, k.seg.id.norm) == k;
    }
    forall k | k in gone ensures k in DeletesFor(w, j, {d}) {
      var n :| n in Rivals(w, d, j) && n != j.NewNorm() && k == At(d, n);
      assert At(k, j.NewNorm()) == d;
    }
  }

  /** The losers of one destination. */
  function Losers(w: Workspace, j: Job, d: Key): set<Key>
    requires d.FamilyKey? && Rivals(w, d, j) != {}
  {
    set n | n in Rivals(w, d, j) && n != j.NewNorm() && n != Winner(Rivals(w, d, j), j) :: At(d, n)
  }

  lemma LosersAreBeaten(w: Workspace, j: Job, d: Key, k: Key)
    requires d in Destinations(w, j) && d.FamilyKey? && Rivals(w, d, j) != {}
    ensures k in Losers(w, j, d) <==> k in Deleted(w, j) && Beaten(w, k, j) && At(k, j.NewNorm()) == d
  {
    ClientRenameProofs.DestinationIsNew(w, d, j);
    assert NormAddressed(k) && At(k, j.NewNorm()) == d ==> At(d, k.seg.id.norm) == k;
    if k in Losers(w, j, d) {
      var n :| n in Rivals(w, d, j) && n != j.NewNorm() && n != Winner(Rivals(w, d, j), j) && k == At(d, n);
      assert Moving(w, k, j) && At(k, j.NewNorm()) == d;
      ClientRenameProofs.RivalsHold(w, k, j);
    }
    if k in Deleted(w, j) && Beaten(w, k, j) && At(k, j.NewNorm()) == d {
      ClientRenameProofs.RivalsHold(w, k, j);
    }
  }

  lemma DebrisForOne(w: Workspace, j: Job, ds: set<Key>, d: Key)
    requires d in Destinations(w, j) && d.FamilyKey? && Rivals(w, d, j) != {}
    ensures DebrisFor(w, j, ds + {d}) ==
            DebrisFor(w, j, ds) + (if d in w.keys && j.NewNorm() !in j.norms then {d} else {}) + Losers(w, j, d)
  {
    forall k
      ensures k in Losers(w, j, d) <==> k in Deleted(w, j) && Beaten(w, k, j) && At(k, j.NewNorm()) == d
    {
      LosersAreBeaten(w, j, d, k);
    }
  }

  /** The changes for the destinations `ds`. */
  ghost function Part(w: Workspace, j: Job, ds: set<Key>): KeyChanges {
    KeyChanges(SetsFor(w, j, ds), DeletesFor(w, j, ds), DebrisFor(w, j, ds))
  }

  /** One destination: the winner's value, named afresh; the losers and an unowned key in the way are reported. */
  method MoveTo(w: Workspace, j: Job, d: Key, rivals: set<string>, c: KeyChanges, ghost done: set<Key>) returns (c': KeyChanges)
    requires Grouped(w, j, d, rivals)
    requires c == Part(w, j, done) && d !in done
    ensures c' == Part(w, j, done + {d})
  {
    ClientRenameProofs.DestinationIsNew(w, d, j);
    assert At(d, j.NewNorm()) == d;
    var winner := Winner(rivals, j);
    var from := At(d, winner);
    var patched := SetName(w.keys[from], j);
    var sets, debris := c.sets, c.debris;
    if d in w.keys && d != from && j.NewNorm() !in j.norms {
      debris := debris + {d};
    }
    if d == from {
      if patched != w.keys[from] {
        sets := sets[d := patched];
      }
    } else {
      sets := sets[d := patched];
    }
    var losers := set n | n in rivals && n != j.NewNorm() && n != winner :: At(d, n);
    var gone := set n | n in rivals && n != j.NewNorm() :: At(d, n);
    c' := KeyChanges(sets, c.deletes + gone, debris + losers);
    SetsForOne(w, j, done, d);
    DeletesForOne(w, j, done, d);
    DebrisForOne(w, j, done, d);
  }

  lemma NoPart(w: Workspace, j: Job)
    ensures Part(w, j, {}) == KeyChanges(map[], {}, {})
  {
  }

  method MoveAll(w: Workspace, j: Job) returns (c: KeyChanges)
    ensures c == Part(w, j, Destinations(w, j))
  {
    var moves := CollectMoves(w, j);
    var todo := moves.Keys;
    ghost var done: set<Key> := {};
    c := KeyChanges(map[], {}, {});
    NoPart(w, j);
    while todo != {}
      invariant forall d :: d in moves <==> (d in todo || d in done)
      invariant forall d :: d in todo ==> d !in done
      invariant c == Part(w, j, done)
      decreases |todo|
    {
      var d :| d in todo;
      c := MoveTo(w, j, d, moves[d], c, done);
      todo, done := todo - {d}, done + {d};
    }
    assert done == moves.Keys;
  }

  lemma AllDestinations(w: Workspace, j: Job)
    ensures Part(w, j, Destinations(w, j)).deletes == Deleted(w, j)
    ensures Part(w, j, Destinations(w, j)).debris == Debris(w, j)
    ensures Part(w, j, Destinations(w, j)).sets == map d | d in Destinations(w, j) && Written(w, j, d) :: Moved(w, d, j)
  {
  }

  /** The keys whose value is rewritten where they are; those of a family that read as a code of ours also when they move. */
  predicate Patched(w: Workspace, j: Job, k: Key)
    requires k in w.keys
  {
    Rewrite(w, k, w.keys[k], j) != w.keys[k]
  }

  /** A record of ours gets the new name written in where it is, every other key is left alone. */
  method RenameInPlace(w: Workspace, j: Job) returns (sets: map<Key, Value>)
    ensures sets == map k | k in w.keys && Patched(w, j, k) :: Rewrite(w, k, w.keys[k], j)
  {
    sets := map[];
    var todo := w.keys.Keys;
    while todo != {}
      invariant todo <= w.keys.Keys
      invariant sets == map k | k in w.keys && k !in todo && Patched(w, j, k) :: Rewrite(w, k, w.keys[k], j)
      decreases |todo|
    {
      var k :| k in todo;
      var v := Rewrite(w, k, w.keys[k], j);
      if v != w.keys[k] {
        sets := sets[k := v];
      }
      todo := todo - {k};
    }
  }

  lemma PatchedIsOverlaid(w: Workspace, j: Job, k: Key)
    requires k in w.keys
    ensures k.FamilyKey? ==> (Patched(w, j, k) <==> Overlaid(w, k, j))
    ensures Patched(w, j, k) ==> k in NewKeys(w, j) && NewKeys(w, j)[k] == Rewrite(w, k, w.keys[k], j)
  {
    if k in Destinations(w, j) {
      ClientRenameProofs.DestinationIsNew(w, k, j);
    }
  }

  lemma ClaimedIsWrittenOrPatched(w: Workspace, j: Job, k: Key)
    ensures k in Claimed(w, j) <==> Written(w, j, k) || (k in w.keys && Patched(w, j, k))
    ensures k in Claimed(w, j) ==>
              NewKeys(w, j)[k] == if k in w.keys && Patched(w, j, k) then Rewrite(w, k, w.keys[k], j) else Moved(w, k, j)
  {
    if k in Destinations(w, j) {
      ClientRenameProofs.DestinationIsNew(w, k, j);
    }
    if k in w.keys {
      PatchedIsOverlaid(w, j, k);
    }
  }

  lemma MovesAndPatches(w: Workspace, j: Job)
    ensures (map d | d in Destinations(w, j) && Written(w, j, d) :: Moved(w, d, j))
            + (map k | k in w.keys && Patched(w, j, k) :: Rewrite(w, k, w.keys[k], j))
            == map k | k in Claimed(w, j) :: NewKeys(w, j)[k]
  {
    forall k
      ensures k in Claimed(w, j) <==> Written(w, j, k) || (k in w.keys && Patched(w, j, k))
      ensures k in Claimed(w, j) ==>
                NewKeys(w, j)[k] == if k in w.keys && Patched(w, j, k) then Rewrite(w, k, w.keys[k], j) else Moved(w, k, j)
    {
      ClaimedIsWrittenOrPatched(w, j, k);
    }
  }

  /** Deletes first, except of keys that are also written, then the writes. */
  function Applied(keys: map<Key, Value>, c: KeyChanges): map<Key, Value> {
    (keys - (c.deletes - c.sets.Keys)) + c.sets
  }

  lemma AppliedIsNew(w: Workspace, j: Job, c: KeyChanges)
    requires c.sets == map k | k in Claimed(w, j) :: NewKeys(w, j)[k]
    requires c.deletes == Deleted(w, j)
    ensures Applied(w.keys, c) == NewKeys(w, j)
  {
    forall k | k in Deleted(w, j) ensures k in NewKeys(w, j) <==> k in Claimed(w, j) {
      if k in Destinations(w, j) {
        ClientRenameProofs.DestinationIsNew(w, k, j);
      }
      PatchedIsOverlaid(w, j, k);
    }
  }

  /** The rename of the keys as sets and deletes: applied, they give exactly the renamed keys. */
  method RenameOwnedKeys(w: Workspace, j: Job) returns (c: KeyChanges)
    ensures Applied(w.keys, c) == NewKeys(w, j)
    ensures c.sets.Keys == Claimed(w, j)
    ensures c.deletes == Deleted(w, j)
    ensures c.debris == Debris(w, j)
  {
    var moved := MoveAll(w, j);
    var patched := RenameInPlace(w, j);
    AllDestinations(w, j);
    MovesAndPatches(w, j);
    c := KeyChanges(moved.sets + patched, moved.deletes, moved.debris);
    AppliedIsNew(w, j, c);
  }

  /** The whole rename: the keys, the engagement index, the roadmap index and the roadmap, and what it reports. */
  method RenameWorkspace(w: Workspace, j: Job) returns (after: Workspace, debris: set<Key>)
    ensures after == Renamed(w, j) && debris == Debris(w, j)
  {
    var c := RenameOwnedKeys(w, j);
    var es := RenameIndex(Entries(w), j);
    var metas := RenameRoadmapIndex(OrEmpty(w.roadmapIndex), j);
    var roadmap := RenameRoadmap(RoadmapOf(w), j);
    after := Workspace(
      if w.index.Some? then Some(es) else None,
      w.codeIndex,
      if w.roadmapIndex.Some? then Some(metas) else None,
      if w.roadmap.Some? then Some(roadmap) else None,
      Applied(w.keys, c));
    debris := c.debris;
  }
}
