/**
 The code-anchored rename: which norms an engagement is found under, what the rename writes and
 deletes, what it reports, and when it is refused.
 */
module ClientRename {
  import opened ClientNames
  import opened ClientScope
  import opened Options

  datatype Row = Row(id: string, name: string)

  /** The workspace with the three tables a rename reads; an assignment is (user, norm) to name. */
  datatype World = World(w: Workspace, engagements: seq<Row>, interviews: seq<Row>, assignments: map<(string, string), string>)

  /** The engagement code, or else the name, that says which client is meant. */
  datatype Target = Target(code: string, name: string)

  // ---------- Which engagement, which norms ----------

  function ResolveCode(w: Workspace, target: Target): Option<string> {
    if target.code != "" then
      if RecordKey(target.code) in w.keys || LastIndexed(Entries(w), target.code).Some? then Some(target.code) else None
    else
      CodeUnder(w, Norm(target.name))
  }

  /** The code the index has for a norm; an empty norm or an empty code is none. */
  function CodeUnder(w: Workspace, n: string): Option<string> {
    if n != "" && EntryFor(Entries(w), n).Some? && EntryFor(Entries(w), n).value != "" then EntryFor(Entries(w), n) else None
  }

  function NormsOfName(name: string): set<string> {
    {Norm(name), LegacyNorm(name)} - {""}
  }

  function NormsOfCode(w: Workspace, c: string): set<string> {
    (set e | e in Entries(w) && e.code == c :: e.norm) - {""} +
    (if RecordKey(c) in w.keys && w.keys[RecordKey(c)].Doc? && TextOf(w.keys[RecordKey(c)].fields, "client").Some?
     then NormsOfName(TextOf(w.keys[RecordKey(c)].fields, "client").value) else {})
  }

  function OwnedNorms(w: Workspace, code: Option<string>, name: string): set<string> {
    NormsOfName(name) + (if code.Some? then NormsOfCode(w, code.value) else {})
  }

  predicate RowMatches(r: Row, norms: set<string>) {
    Norm(r.name) in norms || LegacyNorm(r.name) in norms
  }

  function Matching(rows: seq<Row>, norms: set<string>): set<string> {
    set r | r in rows && RowMatches(r, norms) :: Norm(r.name)
  }

  /** The owned norms, widened by the rows that match them. */
  function Widened(world: World, norms: set<string>): set<string> {
    norms + (Matching(world.engagements, norms) - {""})
  }

  function FirstMatch(rows: seq<Row>, norms: set<string>): Option<string> {
    if rows == [] then None
    else if RowMatches(rows[0], norms) then Some(Norm(rows[0].name))
    else FirstMatch(rows[1..], norms)
  }

  // ---------- What the rename writes ----------

  datatype Job = Job(norms: set<string>, code: Option<string>, newName: string, preferred: string) {
    function NewNorm(): string { Norm(newName) }
    function Stale(): set<string> { norms - {NewNorm()} }
  }

  const NAME_FIELDS: set<string> := {"client", "clientName"}

  function NewField(name: string, f: Field, j: Job): Field {
    if f.Text? && (name in NAME_FIELDS || (f.s != "" && Norm(f.s) in j.norms)) then Text(j.newName) else f
  }

  /** A record of this engagement with the client's name written in, whatever the field is called. */
  function SetName(v: Value, j: Job): Value {
    if v.Doc? then Doc(map f | f in v.fields :: NewField(f, v.fields[f], j)) else v
  }

  function At(k: Key, n: string): Key
    requires k.FamilyKey?
  {
    FamilyKey(k.family, Plain(NormId(n)), k.rest)
  }

  predicate NormAddressed(k: Key) {
    k.FamilyKey? && k.seg.Plain? && k.seg.id.NormId?
  }

  /** The segment reads as a code that the workspace gives to somebody: such a key is taken to be addressed by code. */
  predicate KnownCode(w: Workspace, id: Ident) {
    CodeOwner(w, map[], CodeText(id)).Some?
  }

  /** The key is one of ours and is addressed by the client's name, so its key changes. */
  predicate Moving(w: Workspace, k: Key, j: Job) {
    NormAddressed(k) && k.seg.id.norm in j.norms && !KnownCode(w, k.seg.id)
  }

  /** The owned norms under which this family key is stored and moves. */
  function Rivals(w: Workspace, k: Key, j: Job): set<string>
    requires k.FamilyKey?
  {
    set n | n in j.norms && At(k, n) in w.keys && !KnownCode(w, NormId(n))
  }

  predicate Leq(a: string, b: string) {
    if a == "" then true
    else if b == "" then false
    else a[0] < b[0] || (a[0] == b[0] && Leq(a[1..], b[1..]))
  }

  lemma {:induction false} LeqTotal(a: string, b: string)
    ensures Leq(a, b) || Leq(b, a)
    ensures Leq(a, b) && Leq(b, a) ==> a == b
  {
    if a != "" && b != "" {
      LeqTotal(a[1..], b[1..]);
      assert a == [a[0]] + a[1..] && b == [b[0]] + b[1..];
    }
  }

  lemma {:induction false} LeqTransitive(a: string, b: string, c: string)
    requires Leq(a, b) && Leq(b, c)
    ensures Leq(a, c)
  {
    if a != "" && a[0] == b[0] && b[0] == c[0] {
      LeqTransitive(a[1..], b[1..], c[1..]);
    }
  }

  predicate IsLeast(x: string, s: set<string>) {
    x in s && forall y :: y in s ==> Leq(x, y)
  }

  lemma {:induction false} LeastExists(s: set<string>)
    requires s != {}
    ensures exists x :: IsLeast(x, s)
    ensures forall x, y :: IsLeast(x, s) && IsLeast(y, s) ==> x == y
  {
    var p :| p in s;
    if s == {p} {
      LeqTotal(p, p);
      assert IsLeast(p, s);
    } else {
      LeastExists(s - {p});
      var q :| IsLeast(q, s - {p});
      LeqTotal(p, q);
      LeqTotal(p, p);
      if Leq(p, q) {
        forall y | y in s ensures Leq(p, y) {
          if y != p { LeqTransitive(p, q, y); }
        }
        assert IsLeast(p, s);
      } else {
        assert IsLeast(q, s);
      }
    }
    forall x, y | IsLeast(x, s) && IsLeast(y, s) ensures x == y {
      LeqTotal(x, y);
    }
  }

  function Least(s: set<string>): (x: string)
    requires s != {}
    ensures IsLeast(x, s)
  {
    LeastExists(s);
    var p :| IsLeast(p, s);
    p
  }

  /** Which copy survives: the canonical name's, else the one already at the new norm, else the first by name. */
  function Winner(rivals: set<string>, j: Job): string
    requires rivals != {}
  {
    if j.preferred in rivals then j.preferred
    else if j.NewNorm() in rivals then j.NewNorm()
    else Least(rivals)
  }

  function Destinations(w: Workspace, j: Job): set<Key> {
    set k | k in w.keys && Moving(w, k, j) :: At(k, j.NewNorm())
  }

  function Deleted(w: Workspace, j: Job): set<Key> {
    set k | k in w.keys && Moving(w, k, j) && k.seg.id.norm != j.NewNorm()
  }

  /** The key's segment reads as the engagement's code, or as a code that one of our norms owns. */
  predicate Ours(w: Workspace, k: Key, j: Job) {
    && k.FamilyKey? && k.seg.Plain?
    && (j.code == Some(CodeText(k.seg.id)) || NormIn(CodeOwner(w, map[], CodeText(k.seg.id)), j.norms))
  }

  /** The rename writes the name into the value where it is, after all moves: what is moved there gives way, and the key is not deleted. */
  predicate Overlaid(w: Workspace, k: Key, j: Job) {
    k in w.keys && Ours(w, k, j) && SetName(w.keys[k], j) != w.keys[k]
  }

  predicate NormIn(n: Option<string>, norms: set<string>) {
    n.Some? && n.value in norms
  }

  function NormOf(name: Option<string>): Option<string> {
    if name.Some? then Some(Norm(name.value)) else None
  }

  predicate BriefingOurs(v: Value, j: Job) {
    v.Doc? &&
    (NormIn(TextOf(v.fields, "normKey"), j.norms) || NormIn(NormOf(TextOf(v.fields, "client")), j.norms))
  }

  function RewriteBriefing(v: Value, j: Job): Value {
    if BriefingOurs(v, j) then Doc(v.fields["client" := Text(j.newName)]["normKey" := Text(j.NewNorm())]) else v
  }

  function RewriteSnapshot(rec: Fields, j: Job): Fields {
    if "clientName" in rec && rec["clientName"].Text? && Norm(rec["clientName"].s) in j.norms
    then rec["clientName" := Text(j.newName)] else rec
  }

  function RewriteSnapshots(v: Value, j: Job): Value {
    if v.Records? then Records(seq(|v.recs|, i requires 0 <= i < |v.recs| => RewriteSnapshot(v.recs[i], j))) else v
  }

  /** The new value of a key that stays where it is. */
  function Rewrite(w: Workspace, k: Key, v: Value, j: Job): Value {
    match k
    case LastBriefing => RewriteBriefing(v, j)
    case Snapshots => RewriteSnapshots(v, j)
    case FamilyKey(_, _, _) => if Ours(w, k, j) then SetName(v, j) else v
    case _ =>
      var o := Resolve(k, Some(v), BuildMaps(w, map[]));
      if o.Client? && o.norm in j.norms then SetName(v, j) else v
  }

  /** The copy that ends up at the destination `d`. */
  function Moved(w: Workspace, d: Key, j: Job): Value
    requires d in Destinations(w, j)
  {
    var rivals := Rivals(w, d, j);
    assert rivals != {} by {
      var k :| k in w.keys && Moving(w, k, j) && d == At(k, j.NewNorm());
      assert At(d, k.seg.id.norm) == k;
      assert k.seg.id.norm in rivals;
    }
    SetName(w.keys[At(d, Winner(rivals, j))], j)
  }

  function NewKeys(w: Workspace, j: Job): map<Key, Value> {
    map k | k in w.keys.Keys + Destinations(w, j) && (k in Destinations(w, j) || k !in Deleted(w, j) || Overlaid(w, k, j)) ::
      if k in Destinations(w, j) && !Overlaid(w, k, j) then Moved(w, k, j) else Rewrite(w, k, w.keys[k], j)
  }

  predicate EntryOurs(e: Entry, j: Job) {
    j.code == Some(e.code) || e.norm in j.norms
  }

  function DropOurs(es: seq<Entry>, j: Job): seq<Entry> {
    if es == [] then []
    else DropOurs(es[..|es| - 1], j) +
         (if EntryOurs(es[|es| - 1], j) && es[|es| - 1].norm != j.NewNorm() then [] else [es[|es| - 1]])
  }

  /** Bind `n` to `c`, in place when `n` already has an entry. */
  function Bind(es: seq<Entry>, n: string, c: string): seq<Entry> {
    if es == [] then [Entry(n, c)]
    else if es[0].norm == n then [Entry(n, c)] + es[1..]
    else [es[0]] + Bind(es[1..], n, c)
  }

  /** Exactly one norm for the code: every other entry of ours goes, and the new norm takes the code. */
  function NewIndex(es: seq<Entry>, j: Job): seq<Entry> {
    if j.code.Some? && exists e :: e in es && EntryOurs(e, j)
    then Bind(DropOurs(es, j), j.NewNorm(), j.code.value)
    else DropOurs(es, j)
  }

  function NewMeta(c: string, meta: Meta, j: Job): Meta {
    if j.code == Some(c) || (meta.clientName.Some? && Norm(meta.clientName.value) in j.norms)
    then meta.(clientName := Some(j.newName)) else meta
  }

  function NewRoadmapIndex(ri: map<string, Meta>, j: Job): map<string, Meta> {
    map c | c in ri :: NewMeta(c, ri[c], j)
  }

  function PartitionRivals(p: map<EngKey, string>, j: Job): set<string> {
    set n | n in j.Stale() && EngClient(n) in p
  }

  function NewPartition(p: map<EngKey, string>, j: Job): map<EngKey, string> {
    var rivals := PartitionRivals(p, j);
    if rivals == {} then p
    else
      var first := if j.preferred in rivals then j.preferred else Least(rivals);
      (p - (set n | n in rivals :: EngClient(n)))[EngClient(j.NewNorm()) := p[EngClient(first)]]
  }

  function NewRoadmap(r: Roadmap, j: Job): Roadmap {
    r.(fams := map f | f in r.fams :: NewPartition(r.fams[f], j))
  }

  /** The workspace with the rename applied. */
  function Renamed(w: Workspace, j: Job): Workspace {
    Workspace(
      if w.index.Some? then Some(NewIndex(w.index.value, j)) else None,
      w.codeIndex,
      if w.roadmapIndex.Some? then Some(NewRoadmapIndex(w.roadmapIndex.value, j)) else None,
      if w.roadmap.Some? then Some(NewRoadmap(w.roadmap.value, j)) else None,
      NewKeys(w, j))
  }

  /** The keys the rename writes: every move, and every value it changed. */
  function Claimed(w: Workspace, j: Job): set<Key> {
    set k | k in NewKeys(w, j) &&
      (k !in w.keys || NewKeys(w, j)[k] != w.keys[k] || (k in Destinations(w, j) && Winner(Rivals(w, k, j), j) != j.NewNorm()))
  }

  /** Keys whose content the rename gives up, as the report names them. */
  function Debris(w: Workspace, j: Job): set<Key> {
    (set d | d in Destinations(w, j) && d in w.keys && j.NewNorm() !in j.norms) +
    (set k | k in Deleted(w, j) && Beaten(w, k, j))
  }

  /** Another owned norm's copy is the one that survives. */
  predicate Beaten(w: Workspace, k: Key, j: Job)
    requires NormAddressed(k)
  {
    var rivals := Rivals(w, k, j);
    rivals != {} && k.seg.id.norm != Winner(rivals, j)
  }

  // ---------- The plan ----------

  datatype Reason = InvalidInput | UnknownEngagement | UnknownClient | Collision | NothingNamed

  datatype Outcome = Refused(reason: Reason) | Planned(job: Job, matched: set<string>)

  /** Something live holds the norm: an index entry, a table row or an assignment outside the owned set. */
  predicate Taken(world: World, norms: set<string>, n: string) {
    || CodeUnder(world.w, n).Some?
    || (exists r :: r in world.engagements && Norm(r.name) == n)
    || (exists r :: r in world.interviews && Norm(r.name) == n)
    || (exists a :: a in world.assignments && a.1 !in norms && (a.1 == n || Norm(world.assignments[a]) == n))
  }

  function FirstIndexed(es: seq<Entry>, c: string): Option<string> {
    if es == [] then None
    else if es[0].code == c && es[0].norm != "" then Some(es[0].norm)
    else FirstIndexed(es[1..], c)
  }

  /** The owned norm found first: the caller's name, the index in order, the engagement's record. */
  function FirstOwned(w: Workspace, code: Option<string>, name: string, norms: set<string>): string
    requires norms != {}
  {
    if Norm(name) != "" then Norm(name)
    else if code.Some? && FirstIndexed(Entries(w), code.value).Some? then FirstIndexed(Entries(w), code.value).value
    else if code.Some? && RecordClient(w.keys, code.value).Some? && RecordClient(w.keys, code.value).value in norms
    then RecordClient(w.keys, code.value).value
    else Least(norms)
  }

  predicate AnyRow(rows: seq<Row>, norms: set<string>) {
    exists r :: r in rows && RowMatches(r, norms)
  }

  /** What a rename would be carried out with: the norms it finds, and whose copy is preferred. */
  function JobFor(world: World, target: Target, newName: string): Job
    requires OwnedNorms(world.w, ResolveCode(world.w, target), target.name) != {}
  {
    var code := ResolveCode(world.w, target);
    var matched := OwnedNorms(world.w, code, target.name);
    var first := FirstMatch(world.engagements, matched);
    var preferred := if first.Some? then first.value else FirstOwned(world.w, code, target.name, matched);
    Job(Widened(world, matched), code, newName, preferred)
  }

  function Plan(world: World, target: Target, newName: string): Outcome {
    var newNorm := Norm(newName);
    if newNorm == "" then Refused(InvalidInput)
    else
      var code := ResolveCode(world.w, target);
      var matched := OwnedNorms(world.w, code, target.name);
      if target.code != "" && code.None? then Refused(UnknownEngagement)
      else if matched == {} then Refused(UnknownClient)
      else
        var j := JobFor(world, target, newName);
        if newNorm !in j.norms && Taken(world, j.norms, newNorm) then Refused(Collision)
        else if code.None? && !AnyRow(world.engagements, matched) && !AnyRow(world.interviews, j.norms)
                && Renamed(world.w, j) == world.w && newNorm !in j.norms then Refused(NothingNamed)
        else Planned(j, matched)
  }

  function NewRows(rows: seq<Row>, norms: set<string>, newName: string): seq<Row> {
    seq(|rows|, i requires 0 <= i < |rows| => if RowMatches(rows[i], norms) then rows[i].(name := newName) else rows[i])
  }

  function AssignedNorms(assignments: map<(string, string), string>, norms: set<string>): set<string> {
    set a | a in assignments && (a.1 in norms || Norm(assignments[a]) in norms) :: a.1
  }

  function NewAssignments(assignments: map<(string, string), string>, j: Job): map<(string, string), string> {
    var moved := AssignedNorms(assignments, j.norms);
    var arrived := set a | a in assignments && a.1 in moved :: (a.0, j.NewNorm());
    (map a | a in assignments && a.1 !in moved :: assignments[a]) + (map u | u in arrived :: j.newName)
  }

  /** The workspace and the three tables after a planned rename. */
  function ApplyPlan(world: World, o: Outcome): World
    requires o.Planned?
  {
    World(Renamed(world.w, o.job),
          NewRows(world.engagements, o.matched, o.job.newName),
          NewRows(world.interviews, o.job.norms, o.job.newName),
          NewAssignments(world.assignments, o.job))
  }

  // ---------- What the plan reports as left behind ----------

  datatype Residue =
    | KeyLeft(key: Key)
    | EntryLeft(entry: Entry)
    | BriefingLeft
    | NameLeft(key: Key, field: string)
    | IndexNameLeft(entry: Entry)
    | EngagementLeft(row: Row)
    | InterviewLeft(row: Row)

  predicate OwnerIn(o: Owner, norms: set<string>) {
    o.Client? && o.norm in norms
  }

  predicate KeyIsLeft(after: Workspace, k: Key, stale: set<string>)
    requires k in after.keys
  {
    match k
    case FamilyKey(_, _, _) => NormAddressed(k) && k.seg.id.norm in stale
    case LastBriefing => false
    case GlobalKey(_) => false
    case _ => OwnerIn(Resolve(k, Some(after.keys[k]), BuildMaps(after, map[])), stale)
  }

  predicate BriefingIsLeft(keys: map<Key, Value>, stale: set<string>) {
    LastBriefing in keys &&
    (keys[LastBriefing].Raw? ||
     (keys[LastBriefing].Doc? &&
      (NormIn(TextOf(keys[LastBriefing].fields, "normKey"), stale) || NormIn(NormOf(TextOf(keys[LastBriefing].fields, "client")), stale))))
  }

  predicate NamesStale(v: Value, field: string, stale: set<string>) {
    v.Doc? && field in v.fields && v.fields[field].Text? && v.fields[field].s != "" && Norm(v.fields[field].s) in stale
  }

  function FieldsOf(v: Value): set<string> {
    if v.Doc? then v.fields.Keys else {}
  }

  /** The values whose fields the scan reads: those stored under the code, and those the rename wrote. */
  predicate Scanned(w: Workspace, j: Job, k: Key) {
    k.FamilyKey? && ((k.seg.Plain? && j.code == Some(CodeText(k.seg.id))) || k in Claimed(w, j))
  }

  /** The scan of the workspace the plan would produce, looking for any old identity. */
  function ResidueOf(world: World, o: Outcome): set<Residue>
    requires o.Planned?
  {
    var j := o.job;
    var stale := j.Stale();
    var after := Renamed(world.w, j);
    if stale == {} then {}
    else
      (set k | k in after.keys && KeyIsLeft(after, k, stale) :: KeyLeft(k)) +
      (set e | e in Entries(after) && (e.norm in stale || (j.code == Some(e.code) && e.norm != j.NewNorm())) :: EntryLeft(e)) +
      (if BriefingIsLeft(after.keys, stale) then {BriefingLeft} else {}) +
      (set k, f | k in after.keys && Scanned(world.w, j, k) && f in FieldsOf(after.keys[k]) && NamesStale(after.keys[k], f, stale) :: NameLeft(k, f)) +
      (set e | e in Entries(after) && after.index != world.w.index && e.code != "" && Norm(e.code) in stale :: IndexNameLeft(e)) +
      (set r | r in world.engagements && !RowMatches(r, o.matched) && Norm(r.name) in stale :: EngagementLeft(r)) +
      (set r | r in world.interviews && !RowMatches(r, j.norms) && Norm(r.name) in stale :: InterviewLeft(r))
  }
}
