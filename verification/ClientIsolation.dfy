/**
 What a run of scoped writes by restricted callers leaves untouched: everything held by a client
 that none of the callers is allowed to see.
 */
module ClientIsolation {
  import opened ClientNames
  import opened ClientScope
  import opened Options

  /** A row decides whatever segment reads as its code; else a norm stands for itself. */
  function IdentRow(id: Ident, t: Trusted): Option<string> {
    if CodeText(id) in t then Some(Norm(t[CodeText(id)]))
    else if id.NormId? && id.norm != GLOBAL then Some(id.norm)
    else None
  }

  /** The client a key is addressed to by a norm or by a code with a row in the engagements table. */
  function AddressedTo(k: Key, t: Trusted): Option<string> {
    if !k.FamilyKey? then None
    else match k.seg
         case Plain(id) => IdentRow(id, t)
         case Eng(id) => IdentRow(id, t)
         case ClientSeg(n) => if n == GLOBAL then None else Some(n)
         case Unassigned => None
  }

  predicate EngHeld(ek: EngKey, t: Trusted, n: string) {
    match ek
    case EngCode(c) => c in t && Norm(t[c]) == n
    case EngClient(x) => x == n
    case EngOther(_) => false
  }

  /** What is addressed to client `n`: keys, index entries and roadmap partitions. */
  datatype Holdings = Holdings(
    entries: seq<Entry>,
    codeIndex: map<string, string>,
    roadmapIndex: map<string, Meta>,
    partitions: map<RoadmapFamily, map<EngKey, string>>,
    keys: map<Key, Value>)

  function EntriesOf(es: seq<Entry>, n: string): seq<Entry> {
    FilterEntries(es, {n}, true)
  }

  function PartitionOf(p: map<EngKey, string>, t: Trusted, n: string): map<EngKey, string> {
    map ek | ek in p && EngHeld(ek, t, n) :: p[ek]
  }

  function PartitionsOf(r: Roadmap, t: Trusted, n: string): map<RoadmapFamily, map<EngKey, string>> {
    map f | f in FAMILIES :: PartitionOf(Partition(r, f), t, n)
  }

  function KeysOf(keys: map<Key, Value>, t: Trusted, n: string): map<Key, Value> {
    map k | k in keys && AddressedTo(k, t) == Some(n) :: keys[k]
  }

  function CodeIndexOf(ci: map<string, string>, t: Trusted, n: string): map<string, string> {
    map c | c in ci && c in t && Norm(t[c]) == n :: ci[c]
  }

  function RoadmapIndexOf(ri: map<string, Meta>, t: Trusted, n: string): map<string, Meta> {
    map c | c in ri && c in t && Norm(t[c]) == n :: ri[c]
  }

  function HoldingsOf(w: Workspace, t: Trusted, n: string): Holdings {
    Holdings(EntriesOf(Entries(w), n),
             CodeIndexOf(OrEmpty(w.codeIndex), t, n),
             RoadmapIndexOf(OrEmpty(w.roadmapIndex), t, n),
             PartitionsOf(RoadmapOf(w), t, n),
             KeysOf(w.keys, t, n))
  }

  lemma {:induction false} EntriesOfConcat(a: seq<Entry>, b: seq<Entry>, n: string)
    ensures EntriesOf(a + b, n) == EntriesOf(a, n) + EntriesOf(b, n)
  {
    if b == [] {
      assert a + b == a;
    } else {
      assert (a + b)[..|a + b| - 1] == a + b[..|b| - 1];
      EntriesOfConcat(a, b[..|b| - 1], n);
    }
  }

  lemma {:induction false} ForeignEntriesKept(es: seq<Entry>, allowed: set<string>, n: string)
    requires !Has(allowed, n)
    ensures EntriesOf(FilterEntries(es, allowed, false), n) == EntriesOf(es, n)
  {
    if es != [] {
      var last, init := es[|es| - 1], es[..|es| - 1];
      ForeignEntriesKept(init, allowed, n);
      EntriesOfConcat(FilterEntries(init, allowed, false), if Has(allowed, last.norm) then [] else [last], n);
      EntriesOfConcat(init, [last], n);
      assert es == init + [last];
    }
  }

  lemma {:induction false} AcceptedAreOwn(es: seq<Entry>, cur: Workspace, sets: Workspace, t: Trusted, allowed: set<string>, n: string)
    requires !Has(allowed, n)
    ensures EntriesOf(AcceptEntries(es, cur, sets, t, allowed), n) == []
  {
    if es != [] {
      AcceptedAreOwn(es[..|es| - 1], cur, sets, t, allowed, n);
      EntriesOfConcat(AcceptEntries(es[..|es| - 1], cur, sets, t, allowed), AcceptEntry(es[|es| - 1], cur, sets, t, allowed), n);
    }
  }

  lemma EntriesStay(w: Workspace, req: Change, allowed: set<string>, t: Trusted, n: string)
    requires !Has(allowed, n)
    ensures EntriesOf(Entries(Step(w, req, allowed, t)), n) == EntriesOf(Entries(w), n)
  {
    if req.sets.index.Some? {
      ForeignEntriesKept(Entries(w), allowed, n);
      AcceptedAreOwn(Entries(req.sets), w, req.sets, t, allowed, n);
      EntriesOfConcat(FilterEntries(Entries(w), allowed, false), AcceptEntries(Entries(req.sets), w, req.sets, t, allowed), n);
      assert Entries(Step(w, req, allowed, t)) == MergeIndex(w, req.sets, t, allowed);
    }
  }

  /** A code with a row resolves to its row, whatever the request claims. */
  lemma RowDecides(w: Workspace, sets: Workspace, t: Trusted)
    ensures forall c :: c in t ==> Get(ScopeMaps(w, sets, t).codes, c) == Some(Norm(t[c]))
    ensures forall s :: SessionClient(w.keys, s).Some? ==> Get(ScopeMaps(w, sets, t).sessions, s) == SessionClient(w.keys, s)
    ensures forall s :: SessionClient(w.keys, s).None? ==> Get(ScopeMaps(w, sets, t).sessions, s) == SessionClient(sets.keys, s)
  {
    MapsAreOwners(w, t);
    MapsAreOwners(sets, map[]);
    var m, i := BuildMaps(w, t), BuildMaps(sets, map[]);
    forall c | c in t ensures Get(Extend(m, i).codes, c) == Some(Norm(t[c])) {
      assert Get(m.codes, c) == CodeOwner(w, t, c);
    }
    forall s
      ensures SessionClient(w.keys, s).Some? ==> Get(Extend(m, i).sessions, s) == SessionClient(w.keys, s)
      ensures SessionClient(w.keys, s).None? ==> Get(Extend(m, i).sessions, s) == SessionClient(sets.keys, s)
    {
      assert Get(m.sessions, s) == SessionClient(w.keys, s);
      assert Get(i.sessions, s) == SessionClient(sets.keys, s);
    }
  }

  lemma CodeIndexStays(s: map<string, string>, i: map<string, string>, allowed: set<string>, m: Maps, t: Trusted, n: string)
    requires !Has(allowed, n)
    requires forall c :: c in t ==> Get(m.codes, c) == Some(Norm(t[c]))
    ensures CodeIndexOf(FilterCodeIndex(s, allowed, m, false) + FilterCodeIndex(i, allowed, m, true), t, n) == CodeIndexOf(s, t, n)
  {
    forall c, sid | c in t && Norm(t[c]) == n ensures !HasSome(allowed, CodeEntryOwner(m, c, sid)) {
      assert Get(m.codes, c) == Some(n);
    }
  }

  lemma RoadmapIndexStays(s: map<string, Meta>, i: map<string, Meta>, allowed: set<string>, m: Maps, t: Trusted, n: string)
    requires !Has(allowed, n)
    requires forall c :: c in t ==> Get(m.codes, c) == Some(Norm(t[c]))
    ensures RoadmapIndexOf(FilterRoadmapIndex(i, allowed, m, true) + FilterRoadmapIndex(s, allowed, m, false), t, n) == RoadmapIndexOf(s, t, n)
  {
    forall c, meta | c in t && Norm(t[c]) == n ensures !HasSome(allowed, MetaOwner(m, c, meta)) {
      assert Get(m.codes, c) == Some(n);
    }
  }

  lemma IndexesStay(w: Workspace, req: Change, allowed: set<string>, t: Trusted, n: string)
    requires !Has(allowed, n)
    ensures CodeIndexOf(OrEmpty(Step(w, req, allowed, t).codeIndex), t, n) == CodeIndexOf(OrEmpty(w.codeIndex), t, n)
    ensures RoadmapIndexOf(OrEmpty(Step(w, req, allowed, t).roadmapIndex), t, n) == RoadmapIndexOf(OrEmpty(w.roadmapIndex), t, n)
  {
    RowDecides(w, req.sets, t);
    var m := ScopeMaps(w, req.sets, t);
    CodeIndexStays(OrEmpty(w.codeIndex), OrEmpty(req.sets.codeIndex), allowed, m, t, n);
    RoadmapIndexStays(OrEmpty(w.roadmapIndex), OrEmpty(req.sets.roadmapIndex), allowed, m, t, n);
  }

  lemma PartitionStays(s: map<EngKey, string>, i: map<EngKey, string>, allowed: set<string>, m: Maps, t: Trusted, n: string)
    requires !Has(allowed, n)
    requires forall c :: c in t ==> Get(m.codes, c) == Some(Norm(t[c]))
    ensures PartitionOf(MergePartition(s, i, allowed, m), t, n) == PartitionOf(s, t, n)
  {
    forall ek | EngHeld(ek, t, n) ensures !EngAllowed(ek, allowed, m) {
    }
  }

  lemma MergedRoadmapStays(r: Roadmap, i: Roadmap, allowed: set<string>, m: Maps, t: Trusted, n: string)
    requires !Has(allowed, n)
    requires forall c :: c in t ==> Get(m.codes, c) == Some(Norm(t[c]))
    ensures PartitionsOf(MergeRoadmap(r, i, allowed, m), t, n) == PartitionsOf(r, t, n)
  {
    var r' := MergeRoadmap(r, i, allowed, m);
    forall f | f in FAMILIES ensures PartitionOf(Partition(r', f), t, n) == PartitionOf(Partition(r, f), t, n) {
      PartitionStays(Partition(r, f), Partition(i, f), allowed, m, t, n);
    }
  }

  lemma RoadmapStays(w: Workspace, req: Change, allowed: set<string>, t: Trusted, n: string)
    requires !Has(allowed, n)
    ensures PartitionsOf(RoadmapOf(Step(w, req, allowed, t)), t, n) == PartitionsOf(RoadmapOf(w), t, n)
  {
    if req.sets.roadmap.Some? {
      RowDecides(w, req.sets, t);
      var m := ScopeMaps(w, req.sets, t);
      MergedRoadmapStays(RoadmapOf(w), req.sets.roadmap.value, allowed, m, t, n);
    }
  }

  // ---------- Segments that are looked up ----------

  /** Who a code belongs to while a request is judged: what the server holds, else what the request itself says. */
  function BindingOf(w: Workspace, sets: Workspace, t: Trusted, c: string): Option<string> {
    OrElse(CodeOwner(w, t, c), CodeOwner(sets, map[], c))
  }

  lemma BindingsAreScoped(w: Workspace, sets: Workspace, t: Trusted, c: string)
    ensures Get(ScopeMaps(w, sets, t).codes, c) == BindingOf(w, sets, t, c)
  {
    MapsAreOwners(w, t);
    MapsAreOwners(sets, map[]);
    assert Get(BuildMaps(w, t).codes, c) == CodeOwner(w, t, c);
    assert Get(BuildMaps(sets, map[]).codes, c) == CodeOwner(sets, map[], c);
  }

  predicate Passes(allowed: set<string>, n: string) {
    n == GLOBAL || Has(allowed, n)
  }

  /** The binding of a code lets these callers at it. */
  predicate Grants(allowed: set<string>, b: Option<string>) {
    b.Some? && Passes(allowed, b.value)
  }

  lemma ResolvesByText(k: Key, v: Option<Value>, m: Maps, allowed: set<string>)
    requires ReadAsCode(k)
    ensures Visible(Resolve(k, v, m), allowed) <==> Passes(allowed, OwnerText(k.family, k.seg.id, Get(m.codes, CodeText(k.seg.id))))
  {
  }

  /** The keys after a step: the accepted sets over the old keys, less the accepted deletes. */
  predicate Accepted(k: Key, v: Option<Value>, m: Maps, allowed: set<string>) {
    Visible(Resolve(k, v, m), allowed)
  }

  lemma KeysAfter(w: Workspace, req: Change, allowed: set<string>, t: Trusted, k: Key)
    ensures var m := ScopeMaps(w, req.sets, t);
            KeyAt(Step(w, req, allowed, t).keys, k) ==
            if k in req.deletes && Accepted(k, KeyAt(w.keys, k), m, allowed) then None
            else if k in req.sets.keys && Accepted(k, KeyAt(req.sets.keys, k), m, allowed) then KeyAt(req.sets.keys, k)
            else KeyAt(w.keys, k)
  {
  }

  lemma SessionAcceptance(id: string, v: Option<Value>, m: Maps, allowed: set<string>)
    ensures Accepted(Session(id), v, m, allowed) <==> HasSome(allowed, Get(m.sessions, id))
  {
  }

  function ClientAt(v: Option<Value>): Option<string> {
    if v.Some? then ClientNorm(v.value) else None
  }

  function After(before: Option<Value>, incoming: Option<Value>, deleted: bool, accepted: bool): Option<Value> {
    if deleted && accepted then None else if incoming.Some? && accepted then incoming else before
  }

  /**
   Who may touch a key with a segment that is looked up, and who is shown it, exactly: whom the binding of its
   code lets at it; and where the segment itself is not the caller's, nothing else does.
   */
  lemma LookedUpExactly(w: Workspace, req: Change, allowed: set<string>, t: Trusted, k: Key)
    requires ReadAsCode(k)
    ensures var c := CodeText(k.seg.id);
            var b, own := BindingOf(w, req.sets, t, c), CodeOwner(w, t, c);
            && KeyAt(Step(w, req, allowed, t).keys, k) ==
                 After(KeyAt(w.keys, k), KeyAt(req.sets.keys, k), k in req.deletes, Passes(allowed, OwnerText(k.family, k.seg.id, b)))
            && KeyAt(Filter(w, allowed, t).keys, k) == (if Passes(allowed, OwnerText(k.family, k.seg.id, own)) then KeyAt(w.keys, k) else None)
            && (!Passes(allowed, IdText(k.seg.id)) ==>
                  && (Passes(allowed, OwnerText(k.family, k.seg.id, b)) <==> Grants(allowed, b))
                  && (Passes(allowed, OwnerText(k.family, k.seg.id, own)) <==> Grants(allowed, own)))
  {
    var m := ScopeMaps(w, req.sets, t);
    BindingsAreScoped(w, req.sets, t, CodeText(k.seg.id));
    ResolvesByText(k, KeyAt(w.keys, k), m, allowed);
    ResolvesByText(k, KeyAt(req.sets.keys, k), m, allowed);
    KeysAfter(w, req, allowed, t, k);
    LookedUpShown(w, allowed, t, k);
  }

  lemma LookedUpShown(w: Workspace, allowed: set<string>, t: Trusted, k: Key)
    requires ReadAsCode(k)
    ensures KeyAt(Filter(w, allowed, t).keys, k) ==
            if Passes(allowed, OwnerText(k.family, k.seg.id, CodeOwner(w, t, CodeText(k.seg.id)))) then KeyAt(w.keys, k) else None
  {
    MapsAreOwners(w, t);
    assert Get(BuildMaps(w, t).codes, CodeText(k.seg.id)) == CodeOwner(w, t, CodeText(k.seg.id));
    ResolvesByText(k, KeyAt(w.keys, k), BuildMaps(w, t), allowed);
  }

  /** The request reaches a key addressed to somebody else, because it has a segment that reads as a code of the caller's. */
  predicate Reaches(w: Workspace, sets: Workspace, allowed: set<string>, t: Trusted, k: Key) {
    ReadAsCode(k) && Grants(allowed, BindingOf(w, sets, t, CodeText(k.seg.id)))
  }

  lemma RowKeepsOut(w: Workspace, sets: Workspace, allowed: set<string>, t: Trusted, n: string, k: Key)
    requires !Has(allowed, n) && ReadAsCode(k) && AddressedTo(k, t) == Some(n) && CodeText(k.seg.id) in t
    ensures !Reaches(w, sets, allowed, t, k) && n != GLOBAL
  {
    NormIsNotGlobal();
  }

  /** One step on a key addressed to a client outside the caller's set: it stays as it was, unless the request reaches it. */
  lemma AddressedUntouched(w: Workspace, req: Change, allowed: set<string>, t: Trusted, n: string, k: Key)
    requires !Has(allowed, n) && n != ""
    requires AddressedTo(k, t) == Some(n)
    ensures KeyAt(Step(w, req, allowed, t).keys, k) ==
            After(KeyAt(w.keys, k), KeyAt(req.sets.keys, k), k in req.deletes, Reaches(w, req.sets, allowed, t, k))
    ensures Reaches(w, req.sets, allowed, t, k) ==> CodeText(k.seg.id) !in t
  {
    if ReadAsCode(k) {
      LookedUpExactly(w, req, allowed, t, k);
      if CodeText(k.seg.id) in t { RowKeepsOut(w, req.sets, allowed, t, n, k); }
    } else {
      KeysAfter(w, req, allowed, t, k);
    }
  }

  // ---------- A norm that no code reads as ----------

  /** The workspace names no owner for the code that `n` reads as. */
  predicate Unclaimed(w: Workspace, n: string) {
    CodeOwner(w, map[], Upper(n)).None?
  }

  /** No key addressed to `n` can be reached: a row stands for the code its norm reads as, or nobody has named that code. */
  predicate OutOfReach(w: Workspace, sets: Workspace, t: Trusted, n: string) {
    Upper(n) in t || (Unclaimed(w, n) && Unclaimed(sets, n))
  }

  lemma OutOfReachIsKept(w: Workspace, sets: Workspace, allowed: set<string>, t: Trusted, n: string, k: Key)
    requires !Has(allowed, n) && AddressedTo(k, t) == Some(n) && OutOfReach(w, sets, t, n)
    ensures !Reaches(w, sets, allowed, t, k)
  {
    if ReadAsCode(k) && CodeText(k.seg.id) in t { RowKeepsOut(w, sets, allowed, t, n, k); }
  }

  lemma {:induction false} AcceptedAreKnown(es: seq<Entry>, cur: Workspace, sets: Workspace, t: Trusted, allowed: set<string>)
    ensures forall e | e in AcceptEntries(es, cur, sets, t, allowed) :: e in es || e in Entries(cur)
  {
    if es != [] {
      var init, last := es[..|es| - 1], es[|es| - 1];
      assert es == init + [last];
      AcceptedAreKnown(init, cur, sets, t, allowed);
      EntryForIsThere(Entries(cur), last.norm);
    }
  }

  /** A code named neither by the workspace nor by the request is not named afterwards. */
  lemma UnclaimedStays(w: Workspace, req: Change, allowed: set<string>, t: Trusted, n: string)
    requires Unclaimed(w, n) && Unclaimed(req.sets, n)
    ensures Unclaimed(Step(w, req, allowed, t), n)
  {
    var c, w' := Upper(n), Step(w, req, allowed, t);
    LastIndexedNamed(Entries(w), c);
    LastIndexedNamed(Entries(req.sets), c);
    LastIndexedNamed(Entries(w'), c);
    AcceptedAreKnown(Entries(req.sets), w, req.sets, t, allowed);
    FilterMembers(Entries(w), allowed, false);
    KeysAfter(w, req, allowed, t, RecordKey(c));
    RecordIsAt(w.keys, c);
    RecordIsAt(req.sets.keys, c);
    RecordIsAt(w'.keys, c);
  }

  lemma RecordIsAt(keys: map<Key, Value>, c: string)
    ensures RecordClient(keys, c) == ClientAt(KeyAt(keys, RecordKey(c)))
  {
  }

  /** A code that is not written like a norm is no norm's, so no key is reached through it. */
  lemma OrdinaryCodeIsNoNorms(w: Workspace, t: Trusted, n: string)
    requires IsNorm(n) && forall c :: CodeOwner(w, map[], c).Some? ==> c in t || !ReadsAsNorm(c)
    ensures Upper(n) in t || Unclaimed(w, n)
  {
    UpperOfNorm(n);
  }

  /** A request whose record gives a code nobody owns to a client of the caller's stores that record, and the code is the client's. */
  lemma RecordClaims(w: Workspace, req: Change, allowed: set<string>, t: Trusted, c: string)
    requires CodeOwner(w, t, c).None? && RecordKey(c) !in req.deletes && HasSome(allowed, RecordClient(req.sets.keys, c))
    ensures var after := Step(w, req, allowed, t);
            CodeOwner(after, t, c) == RecordClient(req.sets.keys, c) == BindingOf(w, req.sets, t, c)
  {
    var after := Step(w, req, allowed, t);
    LookedUpExactly(w, req, allowed, t, RecordKey(c));
    RecordIsAt(req.sets.keys, c);
    RecordIsAt(after.keys, c);
  }

  /**
   The case that is not out of reach. A restricted caller names a code that is a client's norm in upper case, in a
   record of the request, and so comes to write what is stored under the norm; and the record, once stored, shows
   all of it.
   */
  lemma NamedNormIsReached(w: Workspace, req: Change, allowed: set<string>, t: Trusted, n: string, k: Key, other: Key)
    requires CodeOwner(w, t, Upper(n)).None? && RecordKey(Upper(n)) !in req.deletes
    requires HasSome(allowed, RecordClient(req.sets.keys, Upper(n)))
    requires ReadAsCode(k) && k.seg.id == NormId(n) && ReadAsCode(other) && other.seg.id == NormId(n)
    requires k in req.sets.keys && k !in req.deletes
    ensures var after := Step(w, req, allowed, t);
            && KeyAt(after.keys, k) == Some(req.sets.keys[k])
            && KeyAt(Filter(after, allowed, t).keys, other) == KeyAt(after.keys, other)
            && (!Has(allowed, n) && n != GLOBAL ==> KeyAt(Filter(w, allowed, t).keys, other) == None)
  {
    RecordClaims(w, req, allowed, t, Upper(n));
    LookedUpExactly(w, req, allowed, t, k);
    LookedUpShown(w, allowed, t, other);
    LookedUpShown(Step(w, req, allowed, t), allowed, t, other);
  }

  /** A caller for beta reaches what is stored for acme through a code ACME of its own. */
  lemma AcmeReadsAsCode(v: Value, x: Value)
    ensures var k := FamilyKey(NormKeyed("briefing"), Plain(NormId("acme")), "");
            var w := Workspace(None, None, None, None, map[k := v]);
            var sets := Workspace(None, None, None, None, map[RecordKey("ACME") := Doc(map["client" := Text("beta")]), k := x]);
            !OutOfReach(w, sets, map[], "acme") && KeyAt(Step(w, Change(sets, {}), {"beta"}, map[]).keys, k) == Some(x)
  {
    var k := FamilyKey(NormKeyed("briefing"), Plain(NormId("acme")), "");
    var w := Workspace(None, None, None, None, map[k := v]);
    var sets := Workspace(None, None, None, None, map[RecordKey("ACME") := Doc(map["client" := Text("beta")]), k := x]);
    NormFixed("beta");
    assert Upper("acme") == "ACME";
    assert RecordClient(sets.keys, "ACME") == Some("beta");
    NamedNormIsReached(w, Change(sets, {}), {"beta"}, map[], "acme", k, k);
  }

  lemma KeysOfAgree(a: map<Key, Value>, b: map<Key, Value>, t: Trusted, n: string)
    requires forall k | AddressedTo(k, t) == Some(n) :: KeyAt(a, k) == KeyAt(b, k)
    ensures KeysOf(a, t, n) == KeysOf(b, t, n)
  {
    forall k | AddressedTo(k, t) == Some(n)
      ensures k in a <==> k in b
      ensures k in a ==> a[k] == b[k]
    {
      assert KeyAt(a, k) == KeyAt(b, k);
    }
  }

  lemma KeysStay(w: Workspace, req: Change, allowed: set<string>, t: Trusted, n: string)
    requires !Has(allowed, n) && n != "" && OutOfReach(w, req.sets, t, n)
    ensures KeysOf(Step(w, req, allowed, t).keys, t, n) == KeysOf(w.keys, t, n)
  {
    var after := Step(w, req, allowed, t).keys;
    forall k | AddressedTo(k, t) == Some(n) ensures KeyAt(after, k) == KeyAt(w.keys, k) {
      AddressedUntouched(w, req, allowed, t, n, k);
      OutOfReachIsKept(w, req.sets, allowed, t, n, k);
    }
    KeysOfAgree(after, w.keys, t, n);
  }

  /** One step on one session: what is stored afterwards, by who holds it now and who the request says holds it. */
  lemma SessionAfter(w: Workspace, req: Change, allowed: set<string>, t: Trusted, id: string)
    ensures var before, incoming := KeyAt(w.keys, Session(id)), KeyAt(req.sets.keys, Session(id));
            KeyAt(Step(w, req, allowed, t).keys, Session(id)) ==
              After(before, incoming, Session(id) in req.deletes, HasSome(allowed, OrElse(ClientAt(before), ClientAt(incoming))))
  {
    var m, k := ScopeMaps(w, req.sets, t), Session(id);
    var before, incoming := KeyAt(w.keys, k), KeyAt(req.sets.keys, k);
    assert Get(m.sessions, id) == OrElse(ClientAt(before), ClientAt(incoming)) by {
      RowDecides(w, req.sets, t);
    }
    SessionAcceptance(id, before, m, allowed);
    SessionAcceptance(id, incoming, m, allowed);
    KeysAfter(w, req, allowed, t, k);
  }

  /**
   A session nobody outside holds changes hands in one way only: a caller who may see its present
   client overwrites it with a value that names the other client.
   */
  lemma SessionChangesHands(w: Workspace, req: Change, allowed: set<string>, t: Trusted, n: string, id: string)
    requires !Has(allowed, n) && SessionClient(w.keys, id) != Some(n)
    ensures SessionClient(Step(w, req, allowed, t).keys, id) == Some(n) <==>
            && Session(id) !in req.deletes
            && HasSome(allowed, SessionClient(w.keys, id))
            && SessionClient(req.sets.keys, id) == Some(n)
  {
    SessionAfter(w, req, allowed, t, id);
    var w' := Step(w, req, allowed, t);
    assert SessionClient(w'.keys, id) == ClientAt(KeyAt(w'.keys, Session(id)));
  }

  datatype Request = Request(change: Change, allowed: set<string>)

  function Run(w: Workspace, reqs: seq<Request>, t: Trusted): Workspace
    decreases |reqs|
  {
    if reqs == [] then w else Run(Step(w, reqs[0].change, reqs[0].allowed, t), reqs[1..], t)
  }

  /** Nothing the run starts from or asks for names the code that `n` reads as, or a row decides it. */
  predicate NeverClaimed(w: Workspace, reqs: seq<Request>, t: Trusted, n: string) {
    Upper(n) in t || (Unclaimed(w, n) && forall i | 0 <= i < |reqs| :: Unclaimed(reqs[i].change.sets, n))
  }

  /** All but the keys: the index entries, the two code indexes and the roadmap partitions. */
  function SharedOf(h: Holdings): Holdings {
    h.(keys := map[])
  }

  lemma SharedStays(w: Workspace, req: Change, allowed: set<string>, t: Trusted, n: string)
    requires !Has(allowed, n)
    ensures SharedOf(HoldingsOf(Step(w, req, allowed, t), t, n)) == SharedOf(HoldingsOf(w, t, n))
  {
    EntriesStay(w, req, allowed, t, n);
    IndexesStay(w, req, allowed, t, n);
    RoadmapStays(w, req, allowed, t, n);
  }

  /**
   Isolation. Over any run of scoped writes, none of whose callers is allowed client `n`, what is
   addressed to `n` is the same at the end as at the start: nothing changed, removed or added. The shared
   keys need no more than that; the keys need that nobody names the code which `n` reads as.
   */
  lemma {:induction false} RunKeepsHoldings(w: Workspace, reqs: seq<Request>, t: Trusted, n: string)
    requires n != ""
    requires forall i | 0 <= i < |reqs| :: n !in reqs[i].allowed
    ensures SharedOf(HoldingsOf(Run(w, reqs, t), t, n)) == SharedOf(HoldingsOf(w, t, n))
    ensures NeverClaimed(w, reqs, t, n) ==> HoldingsOf(Run(w, reqs, t), t, n) == HoldingsOf(w, t, n)
    decreases |reqs|
  {
    if reqs != [] {
      var r := reqs[0];
      var w' := Step(w, r.change, r.allowed, t);
      SharedStays(w, r.change, r.allowed, t, n);
      if NeverClaimed(w, reqs, t, n) {
        if Upper(n) !in t { UnclaimedStays(w, r.change, r.allowed, t, n); }
        KeysStay(w, r.change, r.allowed, t, n);
        assert NeverClaimed(w', reqs[1..], t, n);
      }
      RunKeepsHoldings(w', reqs[1..], t, n);
    }
  }

  /** What a row or the word `client_` addresses to `n` is kept whatever codes are named. */
  lemma {:induction false} RunKeepsRowed(w: Workspace, reqs: seq<Request>, t: Trusted, n: string, k: Key)
    requires n != "" && forall i | 0 <= i < |reqs| :: n !in reqs[i].allowed
    requires AddressedTo(k, t) == Some(n) && (ReadAsCode(k) ==> CodeText(k.seg.id) in t)
    ensures KeyAt(Run(w, reqs, t).keys, k) == KeyAt(w.keys, k)
    decreases |reqs|
  {
    if reqs != [] {
      AddressedUntouched(w, reqs[0].change, reqs[0].allowed, t, n, k);
      RunKeepsRowed(Step(w, reqs[0].change, reqs[0].allowed, t), reqs[1..], t, n, k);
    }
  }

  /** The sessions `n` holds at the start are, value for value, there at the end of such a run. */
  lemma {:induction false} RunKeepsSessions(w: Workspace, reqs: seq<Request>, t: Trusted, n: string, id: string)
    requires forall i | 0 <= i < |reqs| :: n !in reqs[i].allowed
    requires SessionClient(w.keys, id) == Some(n)
    ensures KeyAt(Run(w, reqs, t).keys, Session(id)) == KeyAt(w.keys, Session(id))
    decreases |reqs|
  {
    if reqs != [] {
      var w' := Step(w, reqs[0].change, reqs[0].allowed, t);
      SessionAfter(w, reqs[0].change, reqs[0].allowed, t, id);
      assert KeyAt(w'.keys, Session(id)) == KeyAt(w.keys, Session(id));
      assert SessionClient(w'.keys, id) == Some(n);
      RunKeepsSessions(w', reqs[1..], t, n, id);
    }
  }
}
