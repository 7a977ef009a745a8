/**
 Who owns a workspace key, what a restricted caller may read, and what a restricted caller may write.
 */
module ClientScope {
  import opened ClientNames
  import opened Options

  /** The owner of a key: a client, the whole firm, the firm's owners only, or nobody known. */
  datatype Owner = Client(norm: string) | Firm | OwnerOnly | Unknown

  /** Code to norm and session to norm, as read from one workspace. */
  datatype Maps = Maps(codes: map<string, string>, sessions: map<string, string>)

  /** Code to client name, from the engagements table. No workspace write can change it. */
  type Trusted = map<string, string>

  function Get<V>(m: map<string, V>, k: string): Option<V> {
    if k in m then Some(m[k]) else None
  }

  function OrElse(a: Option<string>, b: Option<string>): Option<string> {
    if a.Some? then a else b
  }

  // ---------- Maps ----------

  function Entries(w: Workspace): seq<Entry> {
    if w.index.Some? then w.index.value else []
  }

  /** The norm of the last entry that names `c`. */
  function LastIndexed(es: seq<Entry>, c: string): Option<string> {
    if es == [] then None
    else if es[|es| - 1].code == c then Some(es[|es| - 1].norm)
    else LastIndexed(es[..|es| - 1], c)
  }

  function RecordClient(keys: map<Key, Value>, c: string): Option<string> {
    if RecordKey(c) in keys then ClientNorm(keys[RecordKey(c)]) else None
  }

  function SessionClient(keys: map<Key, Value>, id: string): Option<string> {
    if Session(id) in keys then ClientNorm(keys[Session(id)]) else None
  }

  /** The table decides first, then the engagement's own record, then the index. */
  function CodeOwner(w: Workspace, t: Trusted, c: string): Option<string> {
    if c in t then Some(Norm(t[c]))
    else OrElse(RecordClient(w.keys, c), LastIndexed(Entries(w), c))
  }

  predicate IsRecord(k: Key) {
    k.FamilyKey? && k.seg.Plain? && k.seg.id.CodeId? && k == RecordKey(k.seg.id.code)
  }

  function CodesNamed(w: Workspace, t: Trusted): set<string> {
    t.Keys + (set e | e in Entries(w) :: e.code) + (set k | k in w.keys && IsRecord(k) :: k.seg.id.code)
  }

  function SessionsNamed(w: Workspace): set<string> {
    set k | k in w.keys && k.Session? :: k.id
  }

  function CodeMap(w: Workspace, t: Trusted): map<string, string> {
    map c | c in CodesNamed(w, t) && CodeOwner(w, t, c).Some? :: CodeOwner(w, t, c).value
  }

  function SessionMap(w: Workspace): map<string, string> {
    map s | s in SessionsNamed(w) && SessionClient(w.keys, s).Some? :: SessionClient(w.keys, s).value
  }

  function BuildMaps(w: Workspace, t: Trusted): Maps {
    Maps(CodeMap(w, t), SessionMap(w))
  }

  lemma {:induction false} LastIndexedNamed(es: seq<Entry>, c: string)
    ensures LastIndexed(es, c).Some? <==> exists e :: e in es && e.code == c
  {
    if es != [] {
      LastIndexedNamed(es[..|es| - 1], c);
      var last := es[|es| - 1];
      assert es == es[..|es| - 1] + [last];
      if last.code == c {
        assert last in es;
      } else {
        assert forall e :: e in es && e.code == c ==> e in es[..|es| - 1];
      }
    }
  }

  /** The maps hold exactly the owners that the table, the records and the index give. */
  lemma MapsAreOwners(w: Workspace, t: Trusted)
    ensures forall c :: Get(BuildMaps(w, t).codes, c) == CodeOwner(w, t, c)
    ensures forall s :: Get(BuildMaps(w, t).sessions, s) == SessionClient(w.keys, s)
  {
    forall c ensures Get(BuildMaps(w, t).codes, c) == CodeOwner(w, t, c) {
      if CodeOwner(w, t, c).Some? {
        if c !in t && RecordClient(w.keys, c).Some? {
          assert IsRecord(RecordKey(c));
        } else if c !in t {
          LastIndexedNamed(Entries(w), c);
        }
      }
    }
    forall s ensures Get(BuildMaps(w, t).sessions, s) == SessionClient(w.keys, s) {
      if SessionClient(w.keys, s).Some? {
        assert Session(s) in w.keys && Session(s).Session?;
      }
    }
  }

  // ---------- Resolution ----------

  /** The key's segment is looked up among the codes, whatever it looks like. */
  predicate ReadAsCode(k: Key) {
    k.FamilyKey? && (k.seg.Plain? || k.seg.Eng?)
  }

  /** Nobody is named for the code the segment reads as; a family addressed by norm takes an empty client for an answer. */
  predicate StandsForItself(f: Family, b: Option<string>) {
    b.None? || (b.value == "" && !f.NormKeyed?)
  }

  /** The client a segment stands for, by the owner `b` of the code it reads as. */
  function OwnerText(f: Family, id: Ident, b: Option<string>): string {
    if StandsForItself(f, b) then IdText(id) else b.value
  }

  function IdentOwner(f: Family, id: Ident, m: Maps): string {
    OwnerText(f, id, Get(m.codes, CodeText(id)))
  }

  /** The word that stands for "no client identity". */
  const GLOBAL := "GLOBAL"

  lemma NormIsNotGlobal()
    ensures forall s :: Norm(s) != GLOBAL
  {
    forall s ensures Norm(s) != GLOBAL {
      assert !IsNormChar(GLOBAL[0]);
    }
  }

  function Named(n: string): Owner {
    if n == "" then Unknown else if n == GLOBAL then Firm else Client(n)
  }

  /** The client a value names in its own fields. */
  function ValueOwner(v: Value): Owner {
    if !v.Doc? then Unknown
    else
      var c := OrElse(TextOf(v.fields, "client"), TextOf(v.fields, "clientName"));
      if c.Some? then Client(Norm(c.value)) else Unknown
  }

  function BriefingOwner(v: Value): Owner {
    if !v.Doc? then Unknown
    else if "normKey" in v.fields && v.fields["normKey"].Text? then Named(v.fields["normKey"].s)
    else if ClientNorm(v).Some? then Client(ClientNorm(v).value)
    else Unknown
  }

  function Resolve(k: Key, v: Option<Value>, m: Maps): Owner {
    match k
    case OwnerKey(_) => OwnerOnly
    case GlobalKey(_) => Firm
    case LastBriefing => if v.Some? then BriefingOwner(v.value) else Unknown
    case Session(id) => if id in m.sessions then Client(m.sessions[id]) else Unknown
    case Snapshots => if v.Some? then ValueOwner(v.value) else Unknown
    case MiscKey(_) => if v.Some? then ValueOwner(v.value) else Unknown
    case FamilyKey(f, seg, _) =>
      match seg
      case Plain(id) => Named(IdentOwner(f, id, m))
      case Eng(id) => Named(IdentOwner(f, id, m))
      case ClientSeg(n) => Named(n)
      case Unassigned => Unknown
  }

  /** An allowed set never grants the empty norm or the word that means "unknown". */
  predicate Has(allowed: set<string>, n: string) {
    n != "" && n != "UNKNOWN" && n in allowed
  }

  predicate HasSome(allowed: set<string>, n: Option<string>) {
    n.Some? && Has(allowed, n.value)
  }

  predicate Visible(o: Owner, allowed: set<string>) {
    o.Firm? || (o.Client? && Has(allowed, o.norm))
  }

  function CodeEntryOwner(m: Maps, code: string, sid: string): Option<string> {
    OrElse(Get(m.codes, code), Get(m.sessions, sid))
  }

  function MetaOwner(m: Maps, code: string, meta: Meta): Option<string> {
    OrElse(Get(m.codes, code),
           if meta.clientName.Some? && meta.clientName.value != "" then Some(Norm(meta.clientName.value)) else None)
  }

  predicate EngAllowed(ek: EngKey, allowed: set<string>, m: Maps) {
    match ek
    case EngCode(c) => HasSome(allowed, Get(m.codes, c))
    case EngClient(n) => Has(allowed, n)
    case EngOther(_) => false
  }

  // ---------- Read filter ----------

  /** The entries whose norm is allowed (`keep`) or is not (`!keep`), in order. */
  function FilterEntries(es: seq<Entry>, allowed: set<string>, keep: bool): seq<Entry> {
    if es == [] then []
    else FilterEntries(es[..|es| - 1], allowed, keep) +
         (if Has(allowed, es[|es| - 1].norm) == keep then [es[|es| - 1]] else [])
  }

  function FilterCodeIndex(ci: map<string, string>, allowed: set<string>, m: Maps, keep: bool): map<string, string> {
    map c | c in ci && HasSome(allowed, CodeEntryOwner(m, c, ci[c])) == keep :: ci[c]
  }

  function FilterRoadmapIndex(ri: map<string, Meta>, allowed: set<string>, m: Maps, keep: bool): map<string, Meta> {
    map c | c in ri && HasSome(allowed, MetaOwner(m, c, ri[c])) == keep :: ri[c]
  }

  const FAMILIES: set<RoadmapFamily> := {Assumptions, Dependencies, Generated, ByEng}

  function Partition(r: Roadmap, f: RoadmapFamily): map<EngKey, string> {
    if f in r.fams then r.fams[f] else map[]
  }

  function FilterPartition(p: map<EngKey, string>, allowed: set<string>, m: Maps, keep: bool): map<EngKey, string> {
    map ek | ek in p && EngAllowed(ek, allowed, m) == keep :: p[ek]
  }

  function FilterRoadmap(r: Roadmap, allowed: set<string>, m: Maps): Roadmap {
    Roadmap(map f | f in FAMILIES :: FilterPartition(Partition(r, f), allowed, m, true), r.savedAt, map[])
  }

  function FilterKeys(keys: map<Key, Value>, allowed: set<string>, m: Maps): map<Key, Value> {
    map k | k in keys && Visible(Resolve(k, Some(keys[k]), m), allowed) :: keys[k]
  }

  /** What a caller restricted to `allowed` is shown of the workspace `w`. */
  function Filter(w: Workspace, allowed: set<string>, t: Trusted): Workspace {
    var m := BuildMaps(w, t);
    Workspace(
      if w.index.Some? then Some(FilterEntries(w.index.value, allowed, true)) else None,
      if w.codeIndex.Some? then Some(FilterCodeIndex(w.codeIndex.value, allowed, m, true)) else None,
      if w.roadmapIndex.Some? then Some(FilterRoadmapIndex(w.roadmapIndex.value, allowed, m, true)) else None,
      if w.roadmap.Some? then Some(FilterRoadmap(w.roadmap.value, allowed, m)) else None,
      FilterKeys(w.keys, allowed, m))
  }

  // ---------- Write merge ----------

  /** Owners the incoming request names count only where the server has none. */
  function Extend(m: Maps, incoming: Maps): Maps {
    Maps(incoming.codes + m.codes, incoming.sessions + m.sessions)
  }

  /** Who owns a code the caller binds: the server's word, or a record of a code the server never saw. */
  function BindingOwner(cur: Workspace, sets: Workspace, t: Trusted, c: string): Option<string> {
    OrElse(CodeOwner(cur, t, c), RecordClient(sets.keys, c))
  }

  function EntryFor(es: seq<Entry>, norm: string): Option<string> {
    if es == [] then None
    else if es[|es| - 1].norm == norm then Some(es[|es| - 1].code)
    else EntryFor(es[..|es| - 1], norm)
  }

  /** What one incoming entry contributes: itself, the server's entry when its binding is refused, or nothing. */
  function AcceptEntry(e: Entry, cur: Workspace, sets: Workspace, t: Trusted, allowed: set<string>): seq<Entry> {
    if !Has(allowed, e.norm) then []
    else if HasSome(allowed, BindingOwner(cur, sets, t, e.code)) then [e]
    else if EntryFor(Entries(cur), e.norm).Some? then [Entry(e.norm, EntryFor(Entries(cur), e.norm).value)]
    else []
  }

  function AcceptEntries(es: seq<Entry>, cur: Workspace, sets: Workspace, t: Trusted, allowed: set<string>): seq<Entry> {
    if es == [] then []
    else AcceptEntries(es[..|es| - 1], cur, sets, t, allowed) + AcceptEntry(es[|es| - 1], cur, sets, t, allowed)
  }

  function MergeIndex(cur: Workspace, sets: Workspace, t: Trusted, allowed: set<string>): seq<Entry> {
    FilterEntries(Entries(cur), allowed, false) + AcceptEntries(Entries(sets), cur, sets, t, allowed)
  }

  function OrEmpty<K, V>(m: Option<map<K, V>>): map<K, V> {
    if m.Some? then m.value else map[]
  }

  function MergeCodeIndex(cur: Workspace, sets: Workspace, allowed: set<string>, m: Maps): map<string, string> {
    FilterCodeIndex(OrEmpty(cur.codeIndex), allowed, m, false) + FilterCodeIndex(OrEmpty(sets.codeIndex), allowed, m, true)
  }

  /** Here a preserved entry wins over an incoming one for the same code. */
  function MergeRoadmapIndex(cur: Workspace, sets: Workspace, allowed: set<string>, m: Maps): map<string, Meta> {
    FilterRoadmapIndex(OrEmpty(sets.roadmapIndex), allowed, m, true) + FilterRoadmapIndex(OrEmpty(cur.roadmapIndex), allowed, m, false)
  }

  function RoadmapOf(w: Workspace): Roadmap {
    if w.roadmap.Some? then w.roadmap.value else Roadmap(map[], None, map[])
  }

  function MergePartition(s: map<EngKey, string>, i: map<EngKey, string>, allowed: set<string>, m: Maps): map<EngKey, string> {
    FilterPartition(s, allowed, m, false) + FilterPartition(i, allowed, m, true)
  }

  /** The flat notes, synthesis and gantt slots always stay the server's. */
  function MergeRoadmap(cur: Roadmap, inc: Roadmap, allowed: set<string>, m: Maps): Roadmap {
    Roadmap(map f | f in FAMILIES :: MergePartition(Partition(cur, f), Partition(inc, f), allowed, m),
            if inc.savedAt.Some? then inc.savedAt else cur.savedAt,
            cur.flat)
  }

  datatype Change = Change(sets: Workspace, deletes: set<Key>)

  function ScopeMaps(cur: Workspace, sets: Workspace, t: Trusted): Maps {
    Extend(BuildMaps(cur, t), BuildMaps(sets, map[]))
  }

  function KeyAt(keys: map<Key, Value>, k: Key): Option<Value> {
    if k in keys then Some(keys[k]) else None
  }

  /** The part of a restricted caller's request that is applied. */
  function ScopeWrite(req: Change, cur: Workspace, allowed: set<string>, t: Trusted): Change {
    var sets := req.sets;
    var m := ScopeMaps(cur, sets, t);
    Change(
      Workspace(
        if sets.index.Some? then Some(MergeIndex(cur, sets, t, allowed)) else None,
        if sets.codeIndex.Some? then Some(MergeCodeIndex(cur, sets, allowed, m)) else None,
        if sets.roadmapIndex.Some? then Some(MergeRoadmapIndex(cur, sets, allowed, m)) else None,
        if sets.roadmap.Some? then Some(MergeRoadmap(RoadmapOf(cur), sets.roadmap.value, allowed, m)) else None,
        FilterKeys(sets.keys, allowed, m)),
      set k | k in req.deletes && Visible(Resolve(k, KeyAt(cur.keys, k), m), allowed))
  }

  function Over<V>(a: Option<V>, b: Option<V>): Option<V> {
    if b.Some? then b else a
  }

  function Apply(w: Workspace, c: Change): Workspace {
    Workspace(Over(w.index, c.sets.index), Over(w.codeIndex, c.sets.codeIndex),
              Over(w.roadmapIndex, c.sets.roadmapIndex), Over(w.roadmap, c.sets.roadmap),
              (w.keys + c.sets.keys) - c.deletes)
  }

  function Step(w: Workspace, req: Change, allowed: set<string>, t: Trusted): Workspace {
    Apply(w, ScopeWrite(req, w, allowed, t))
  }

  // ---------- Entries of the index ----------

  predicate DistinctNorms(es: seq<Entry>) {
    forall i, j | 0 <= i < j < |es| :: es[i].norm != es[j].norm
  }

  lemma {:induction false} FilterMembers(es: seq<Entry>, allowed: set<string>, keep: bool)
    ensures forall e :: e in FilterEntries(es, allowed, keep) <==> e in es && Has(allowed, e.norm) == keep
  {
    if es != [] {
      FilterMembers(es[..|es| - 1], allowed, keep);
      assert es == es[..|es| - 1] + [es[|es| - 1]];
    }
  }

  lemma {:induction false} EntryForIsThere(es: seq<Entry>, norm: string)
    ensures EntryFor(es, norm).Some? ==> Entry(norm, EntryFor(es, norm).value) in es
  {
    if es != [] {
      assert es == es[..|es| - 1] + [es[|es| - 1]];
      EntryForIsThere(es[..|es| - 1], norm);
    }
  }

  lemma {:induction false} LastIndexedIsThere(es: seq<Entry>, c: string)
    ensures LastIndexed(es, c).Some? ==> Entry(LastIndexed(es, c).value, c) in es
  {
    if es != [] {
      assert es == es[..|es| - 1] + [es[|es| - 1]];
      LastIndexedIsThere(es[..|es| - 1], c);
    }
  }

  // ---------- One entry for each norm ----------

  lemma SnocIsDistinct(es: seq<Entry>, e: Entry)
    requires DistinctNorms(es) && forall f | f in es :: f.norm != e.norm
    ensures DistinctNorms(es + [e])
  {
  }

  lemma InitIsDistinct(es: seq<Entry>)
    requires es != [] && DistinctNorms(es)
    ensures DistinctNorms(es[..|es| - 1]) && forall f | f in es[..|es| - 1] :: f in es && f.norm != es[|es| - 1].norm
  {
  }

  lemma {:induction false} FilteredAreDistinct(es: seq<Entry>, allowed: set<string>, keep: bool)
    requires DistinctNorms(es)
    ensures DistinctNorms(FilterEntries(es, allowed, keep))
  {
    if es != [] {
      InitIsDistinct(es);
      FilteredAreDistinct(es[..|es| - 1], allowed, keep);
      FilterMembers(es[..|es| - 1], allowed, keep);
      SnocIsDistinct(FilterEntries(es[..|es| - 1], allowed, keep), es[|es| - 1]);
    }
  }

  lemma {:induction false} AcceptedNorms(es: seq<Entry>, cur: Workspace, sets: Workspace, t: Trusted, allowed: set<string>)
    ensures forall a | a in AcceptEntries(es, cur, sets, t, allowed) :: Has(allowed, a.norm) && exists e :: e in es && e.norm == a.norm
  {
    if es != [] {
      var init, last := es[..|es| - 1], es[|es| - 1];
      AcceptedNorms(init, cur, sets, t, allowed);
      forall a | a in AcceptEntries(es, cur, sets, t, allowed)
        ensures Has(allowed, a.norm) && exists e :: e in es && e.norm == a.norm
      {
        if a in AcceptEntries(init, cur, sets, t, allowed) {
          var e :| e in init && e.norm == a.norm;
          assert e in es;
        } else {
          assert last in es && a.norm == last.norm;
        }
      }
    }
  }

  lemma {:induction false} AcceptedAreDistinct(es: seq<Entry>, cur: Workspace, sets: Workspace, t: Trusted, allowed: set<string>)
    requires DistinctNorms(es)
    ensures DistinctNorms(AcceptEntries(es, cur, sets, t, allowed))
  {
    if es != [] {
      var init, last := es[..|es| - 1], es[|es| - 1];
      InitIsDistinct(es);
      AcceptedAreDistinct(init, cur, sets, t, allowed);
      AcceptedNorms(init, cur, sets, t, allowed);
      var one := AcceptEntry(last, cur, sets, t, allowed);
      if one != [] {
        SnocIsDistinct(AcceptEntries(init, cur, sets, t, allowed), one[0]);
        assert one == [one[0]];
      }
    }
  }

  lemma ApartIsDistinct(a: seq<Entry>, b: seq<Entry>)
    requires DistinctNorms(a) && DistinctNorms(b) && forall e, f | e in a && f in b :: e.norm != f.norm
    ensures DistinctNorms(a + b)
  {
    var es := a + b;
    forall i, j | 0 <= i < j < |es| ensures es[i].norm != es[j].norm {
      if i < |a| <= j { assert es[i] in a && es[j] in b; }
    }
  }

  /** A scoped write keeps each norm to one entry. */
  lemma StepKeepsDistinct(w: Workspace, req: Change, allowed: set<string>, t: Trusted)
    requires DistinctNorms(Entries(w)) && DistinctNorms(Entries(req.sets))
    ensures DistinctNorms(Entries(Step(w, req, allowed, t)))
  {
    FilteredAreDistinct(Entries(w), allowed, false);
    FilterMembers(Entries(w), allowed, false);
    AcceptedAreDistinct(Entries(req.sets), w, req.sets, t, allowed);
    AcceptedNorms(Entries(req.sets), w, req.sets, t, allowed);
    ApartIsDistinct(FilterEntries(Entries(w), allowed, false), AcceptEntries(Entries(req.sets), w, req.sets, t, allowed));
  }
}
