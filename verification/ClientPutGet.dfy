/**
 What a restricted caller's write comes to, key by key and entry by entry: what is the caller's is stored as it
 was sent and read back so, whatever else is the server's stays, and the keys that belong to no client are shown
 and written by their kind alone.
 */
module ClientPutGet {
  import opened ClientIndexLoops
  import opened ClientIsolation
  import opened ClientNames
  import opened ClientScope
  import opened ClientVisibility
  import opened Options

  // ---------- Owners, as a request is judged ----------

  /** The server's word on a session, or else the request's. */
  function SessionBinding(w: Workspace, sets: Workspace, id: string): Option<string> {
    OrElse(SessionClient(w.keys, id), SessionClient(sets.keys, id))
  }

  lemma SessionsAreScoped(w: Workspace, sets: Workspace, t: Trusted, id: string)
    ensures Get(ScopeMaps(w, sets, t).sessions, id) == SessionBinding(w, sets, id)
  {
    RowDecides(w, sets, t);
  }

  /** A partition of the caller's: of a code that is bound to one of the caller's clients, or of such a client by name. */
  predicate PartitionIsOurs(w: Workspace, sets: Workspace, allowed: set<string>, t: Trusted, ek: EngKey) {
    match ek
    case EngCode(c) => HasSome(allowed, BindingOf(w, sets, t, c))
    case EngClient(n) => Has(allowed, n)
    case EngOther(_) => false
  }

  /** An entry of the code index is whose its code is, or else its session. */
  predicate SessionIsOurs(w: Workspace, sets: Workspace, allowed: set<string>, t: Trusted, c: string, id: string) {
    HasSome(allowed, OrElse(BindingOf(w, sets, t, c), SessionBinding(w, sets, id)))
  }

  /** An entry of the roadmap index is whose its code is, or else the client's it names. */
  predicate MetaIsOurs(w: Workspace, sets: Workspace, allowed: set<string>, t: Trusted, c: string, meta: Meta) {
    var name := if meta.clientName.Some? && meta.clientName.value != "" then Some(Norm(meta.clientName.value)) else None;
    HasSome(allowed, OrElse(BindingOf(w, sets, t, c), name))
  }

  // ---------- Entry by entry ----------

  function PartitionAt(w: Workspace, f: RoadmapFamily, ek: EngKey): Option<string> {
    Lookup(Partition(RoadmapOf(w), f), ek)
  }

  lemma MergedPartitionAt(s: map<EngKey, string>, i: map<EngKey, string>, allowed: set<string>, m: Maps, ek: EngKey)
    ensures Lookup(MergePartition(s, i, allowed, m), ek) == if EngAllowed(ek, allowed, m) then Lookup(i, ek) else Lookup(s, ek)
  {
  }

  lemma FamilyAfter(w: Workspace, req: Change, allowed: set<string>, t: Trusted, f: RoadmapFamily)
    ensures Partition(RoadmapOf(Step(w, req, allowed, t)), f) ==
            if req.sets.roadmap.Some?
            then MergePartition(Partition(RoadmapOf(w), f), Partition(RoadmapOf(req.sets), f), allowed, ScopeMaps(w, req.sets, t))
            else Partition(RoadmapOf(w), f)
  {
    FamiliesAreAll(f, 0);
  }

  lemma PartitionsAreScoped(w: Workspace, sets: Workspace, allowed: set<string>, t: Trusted, ek: EngKey)
    ensures EngAllowed(ek, allowed, ScopeMaps(w, sets, t)) <==> PartitionIsOurs(w, sets, allowed, t, ek)
  {
    if ek.EngCode? { BindingsAreScoped(w, sets, t, ek.code); }
  }

  /** A partition of the caller's is afterwards exactly what the request has there, present or absent; any other is as it was. */
  lemma PartitionAfter(w: Workspace, req: Change, allowed: set<string>, t: Trusted, f: RoadmapFamily, ek: EngKey)
    ensures PartitionAt(Step(w, req, allowed, t), f, ek) ==
            if req.sets.roadmap.Some? && PartitionIsOurs(w, req.sets, allowed, t, ek) then PartitionAt(req.sets, f, ek) else PartitionAt(w, f, ek)
  {
    FamilyAfter(w, req, allowed, t, f);
    PartitionsAreScoped(w, req.sets, allowed, t, ek);
    MergedPartitionAt(Partition(RoadmapOf(w), f), Partition(RoadmapOf(req.sets), f), allowed, ScopeMaps(w, req.sets, t), ek);
  }

  /** The flat slots stay the server's, and the time of saving is the request's if it gives one. */
  lemma RoadmapRestAfter(w: Workspace, req: Change, allowed: set<string>, t: Trusted)
    ensures var before, sent, after := RoadmapOf(w), RoadmapOf(req.sets), RoadmapOf(Step(w, req, allowed, t));
            after.flat == before.flat && after.savedAt == if sent.savedAt.Some? then sent.savedAt else before.savedAt
    ensures Step(w, req, allowed, t).roadmap.Some? <==> w.roadmap.Some? || req.sets.roadmap.Some?
  {
  }

  lemma MergedCodeAt(w: Workspace, sets: Workspace, allowed: set<string>, m: Maps, c: string)
    ensures var before, sent := Get(OrEmpty(w.codeIndex), c), Get(OrEmpty(sets.codeIndex), c);
            Get(MergeCodeIndex(w, sets, allowed, m), c) ==
              if sent.Some? && HasSome(allowed, CodeEntryOwner(m, c, sent.value)) then sent
              else if before.Some? && !HasSome(allowed, CodeEntryOwner(m, c, before.value)) then before
              else None
  {
  }

  lemma CodesAreScoped(w: Workspace, sets: Workspace, allowed: set<string>, t: Trusted, c: string, id: string)
    ensures HasSome(allowed, CodeEntryOwner(ScopeMaps(w, sets, t), c, id)) <==> SessionIsOurs(w, sets, allowed, t, c, id)
  {
    BindingsAreScoped(w, sets, t, c);
    SessionsAreScoped(w, sets, t, id);
  }

  lemma IndexesAfter(w: Workspace, req: Change, allowed: set<string>, t: Trusted)
    ensures var m, after := ScopeMaps(w, req.sets, t), Step(w, req, allowed, t);
            && after.codeIndex == (if req.sets.codeIndex.Some? then Some(MergeCodeIndex(w, req.sets, allowed, m)) else w.codeIndex)
            && after.roadmapIndex == (if req.sets.roadmapIndex.Some? then Some(MergeRoadmapIndex(w, req.sets, allowed, m)) else w.roadmapIndex)
  {
  }

  /** An entry of the code index that is the caller's goes in; else what is there stays, unless it is the caller's and is not sent. */
  lemma CodeIndexAfter(w: Workspace, req: Change, allowed: set<string>, t: Trusted, c: string)
    requires req.sets.codeIndex.Some?
    ensures var before, sent := Get(OrEmpty(w.codeIndex), c), Get(OrEmpty(req.sets.codeIndex), c);
            Get(OrEmpty(Step(w, req, allowed, t).codeIndex), c) ==
              if sent.Some? && SessionIsOurs(w, req.sets, allowed, t, c, sent.value) then sent
              else if before.Some? && !SessionIsOurs(w, req.sets, allowed, t, c, before.value) then before
              else None
  {
    var before, sent := Get(OrEmpty(w.codeIndex), c), Get(OrEmpty(req.sets.codeIndex), c);
    IndexesAfter(w, req, allowed, t);
    MergedCodeAt(w, req.sets, allowed, ScopeMaps(w, req.sets, t), c);
    if before.Some? { CodesAreScoped(w, req.sets, allowed, t, c, before.value); }
    if sent.Some? { CodesAreScoped(w, req.sets, allowed, t, c, sent.value); }
  }

  lemma MergedMetaAt(w: Workspace, sets: Workspace, allowed: set<string>, m: Maps, c: string)
    ensures var before, sent := Lookup(OrEmpty(w.roadmapIndex), c), Lookup(OrEmpty(sets.roadmapIndex), c);
            Lookup(MergeRoadmapIndex(w, sets, allowed, m), c) ==
              if before.Some? && !HasSome(allowed, MetaOwner(m, c, before.value)) then before
              else if sent.Some? && HasSome(allowed, MetaOwner(m, c, sent.value)) then sent
              else None
  {
  }

  /** In the roadmap index what is not the caller's stays; else what is the caller's goes in. */
  lemma RoadmapIndexAfter(w: Workspace, req: Change, allowed: set<string>, t: Trusted, c: string)
    requires req.sets.roadmapIndex.Some?
    ensures var before, sent := Lookup(OrEmpty(w.roadmapIndex), c), Lookup(OrEmpty(req.sets.roadmapIndex), c);
            Lookup(OrEmpty(Step(w, req, allowed, t).roadmapIndex), c) ==
              if before.Some? && !MetaIsOurs(w, req.sets, allowed, t, c, before.value) then before
              else if sent.Some? && MetaIsOurs(w, req.sets, allowed, t, c, sent.value) then sent
              else None
  {
    IndexesAfter(w, req, allowed, t);
    MergedMetaAt(w, req.sets, allowed, ScopeMaps(w, req.sets, t), c);
    BindingsAreScoped(w, req.sets, t, c);
  }

  /** Who may bind a code in the engagement index: the server's word on it, or the request's own record of a code the server does not know. */
  predicate BindingIsOurs(w: Workspace, sets: Workspace, allowed: set<string>, t: Trusted, c: string) {
    HasSome(allowed, OrElse(CodeOwner(w, t, c), RecordClient(sets.keys, c)))
  }

  /** What is under one of the caller's norms once the request is taken: the entry that is sent, the one there was, or none. */
  function EntryAfter(w: Workspace, sets: Workspace, allowed: set<string>, t: Trusted, n: string): Option<string> {
    var before, sent := EntryFor(Entries(w), n), EntryFor(Entries(sets), n);
    if sent.Some? && !BindingIsOurs(w, sets, allowed, t, sent.value) then before else sent
  }

  function AsEntry(n: string, c: Option<string>): seq<Entry> {
    if c.Some? then [Entry(n, c.value)] else []
  }

  lemma OneAccepted(e: Entry, w: Workspace, sets: Workspace, t: Trusted, allowed: set<string>, n: string)
    requires Has(allowed, n)
    ensures var c := if BindingIsOurs(w, sets, allowed, t, e.code) then Some(e.code) else EntryFor(Entries(w), n);
            EntriesOf(AcceptEntry(e, w, sets, t, allowed), n) == if e.norm == n then AsEntry(n, c) else []
  {
    assert EntriesOf([], n) == [];
    forall c ensures EntriesOf([Entry(e.norm, c)], n) == if e.norm == n then [Entry(n, c)] else [] {
      assert [Entry(e.norm, c)][..0] == [];
    }
  }

  lemma {:induction false} EntriesAccepted(es: seq<Entry>, w: Workspace, sets: Workspace, t: Trusted, allowed: set<string>, n: string)
    requires Has(allowed, n) && DistinctNorms(es)
    ensures var sent := EntryFor(es, n);
            EntriesOf(AcceptEntries(es, w, sets, t, allowed), n) ==
              AsEntry(n, if sent.Some? && !BindingIsOurs(w, sets, allowed, t, sent.value) then EntryFor(Entries(w), n) else sent)
  {
    if es != [] {
      var init, last := es[..|es| - 1], es[|es| - 1];
      InitIsDistinct(es);
      EntriesAccepted(init, w, sets, t, allowed, n);
      OneAccepted(last, w, sets, t, allowed, n);
      EntriesOfConcat(AcceptEntries(init, w, sets, t, allowed), AcceptEntry(last, w, sets, t, allowed), n);
      if last.norm == n { EntryForIsThere(init, n); }
    }
  }

  lemma {:induction false} NoneKept(es: seq<Entry>, allowed: set<string>, n: string)
    requires Has(allowed, n)
    ensures EntriesOf(FilterEntries(es, allowed, false), n) == []
  {
    if es != [] {
      var init, last := es[..|es| - 1], es[|es| - 1];
      NoneKept(init, allowed, n);
      var kept := FilterEntries(init, allowed, false);
      assert kept + [] == kept && (kept + [last])[..|kept|] == kept;
    }
  }

  /** Under one of the caller's norms there is afterwards exactly the entry sent, if its code is the caller's, else the one there was; and none if none is sent. */
  lemma EntriesAfter(w: Workspace, req: Change, allowed: set<string>, t: Trusted, n: string)
    requires Has(allowed, n) && req.sets.index.Some? && DistinctNorms(Entries(req.sets))
    ensures EntriesOf(Entries(Step(w, req, allowed, t)), n) == AsEntry(n, EntryAfter(w, req.sets, allowed, t, n))
  {
    NoneKept(Entries(w), allowed, n);
    EntriesAccepted(Entries(req.sets), w, req.sets, t, allowed, n);
    EntriesOfConcat(FilterEntries(Entries(w), allowed, false), AcceptEntries(Entries(req.sets), w, req.sets, t, allowed), n);
  }

  // ---------- All that a client holds ----------

  /** What the request leaves client `n` with in the shared keys: what it sends of each, and what there was of each it does not send. */
  function Sent(w: Workspace, req: Change, allowed: set<string>, t: Trusted, n: string): Holdings {
    var before, sent := HoldingsOf(w, t, n), HoldingsOf(req.sets, t, n);
    Holdings(if req.sets.index.Some? then AsEntry(n, EntryAfter(w, req.sets, allowed, t, n)) else before.entries,
             if req.sets.codeIndex.Some? then sent.codeIndex else before.codeIndex,
             if req.sets.roadmapIndex.Some? then sent.roadmapIndex else before.roadmapIndex,
             if req.sets.roadmap.Some? then sent.partitions else before.partitions,
             map[])
  }

  lemma RowIsBinding(w: Workspace, sets: Workspace, t: Trusted, c: string)
    requires c in t
    ensures BindingOf(w, sets, t, c) == Some(Norm(t[c]))
  {
  }

  lemma SameCodeIndex(p: map<string, string>, q: map<string, string>, t: Trusted, n: string)
    requires forall c | c in t && Norm(t[c]) == n :: Get(p, c) == Get(q, c)
    ensures CodeIndexOf(p, t, n) == CodeIndexOf(q, t, n)
  {
    forall c | c in t && Norm(t[c]) == n
      ensures c in p <==> c in q
      ensures c in p ==> p[c] == q[c]
    {
      assert Get(p, c) == Get(q, c);
    }
  }

  lemma CodeIndexIsSent(w: Workspace, req: Change, allowed: set<string>, t: Trusted, n: string)
    requires Has(allowed, n) && req.sets.codeIndex.Some?
    ensures CodeIndexOf(OrEmpty(Step(w, req, allowed, t).codeIndex), t, n) == CodeIndexOf(OrEmpty(req.sets.codeIndex), t, n)
  {
    forall c | c in t && Norm(t[c]) == n
      ensures Get(OrEmpty(Step(w, req, allowed, t).codeIndex), c) == Get(OrEmpty(req.sets.codeIndex), c)
    {
      RowIsBinding(w, req.sets, t, c);
      CodeIndexAfter(w, req, allowed, t, c);
    }
    SameCodeIndex(OrEmpty(Step(w, req, allowed, t).codeIndex), OrEmpty(req.sets.codeIndex), t, n);
  }

  lemma SameRoadmapIndex(p: map<string, Meta>, q: map<string, Meta>, t: Trusted, n: string)
    requires forall c | c in t && Norm(t[c]) == n :: Lookup(p, c) == Lookup(q, c)
    ensures RoadmapIndexOf(p, t, n) == RoadmapIndexOf(q, t, n)
  {
    forall c | c in t && Norm(t[c]) == n
      ensures c in p <==> c in q
      ensures c in p ==> p[c] == q[c]
    {
      assert Lookup(p, c) == Lookup(q, c);
    }
  }

  lemma RoadmapIndexIsSent(w: Workspace, req: Change, allowed: set<string>, t: Trusted, n: string)
    requires Has(allowed, n) && req.sets.roadmapIndex.Some?
    ensures RoadmapIndexOf(OrEmpty(Step(w, req, allowed, t).roadmapIndex), t, n) == RoadmapIndexOf(OrEmpty(req.sets.roadmapIndex), t, n)
  {
    forall c | c in t && Norm(t[c]) == n
      ensures Lookup(OrEmpty(Step(w, req, allowed, t).roadmapIndex), c) == Lookup(OrEmpty(req.sets.roadmapIndex), c)
    {
      RowIsBinding(w, req.sets, t, c);
      RoadmapIndexAfter(w, req, allowed, t, c);
    }
    SameRoadmapIndex(OrEmpty(Step(w, req, allowed, t).roadmapIndex), OrEmpty(req.sets.roadmapIndex), t, n);
  }

  lemma SamePartition(p: map<EngKey, string>, q: map<EngKey, string>, t: Trusted, n: string)
    requires forall ek | EngHeld(ek, t, n) :: Lookup(p, ek) == Lookup(q, ek)
    ensures PartitionOf(p, t, n) == PartitionOf(q, t, n)
  {
    forall ek | EngHeld(ek, t, n)
      ensures ek in p <==> ek in q
      ensures ek in p ==> p[ek] == q[ek]
    {
      assert Lookup(p, ek) == Lookup(q, ek);
    }
  }

  lemma FamilyIsSent(w: Workspace, req: Change, allowed: set<string>, t: Trusted, n: string, f: RoadmapFamily)
    requires Has(allowed, n) && req.sets.roadmap.Some?
    ensures PartitionOf(Partition(RoadmapOf(Step(w, req, allowed, t)), f), t, n) == PartitionOf(Partition(RoadmapOf(req.sets), f), t, n)
  {
    forall ek | EngHeld(ek, t, n)
      ensures PartitionAt(Step(w, req, allowed, t), f, ek) == PartitionAt(req.sets, f, ek)
    {
      PartitionAfter(w, req, allowed, t, f, ek);
      if ek.EngCode? { RowIsBinding(w, req.sets, t, ek.code); }
    }
    SamePartition(Partition(RoadmapOf(Step(w, req, allowed, t)), f), Partition(RoadmapOf(req.sets), f), t, n);
  }

  lemma RoadmapIsSent(w: Workspace, req: Change, allowed: set<string>, t: Trusted, n: string)
    requires Has(allowed, n) && req.sets.roadmap.Some?
    ensures PartitionsOf(RoadmapOf(Step(w, req, allowed, t)), t, n) == PartitionsOf(RoadmapOf(req.sets), t, n)
  {
    forall f | f in FAMILIES
      ensures PartitionOf(Partition(RoadmapOf(Step(w, req, allowed, t)), f), t, n) == PartitionOf(Partition(RoadmapOf(req.sets), f), t, n)
    {
      FamilyIsSent(w, req, allowed, t, n, f);
    }
  }

  lemma UnsentStays(w: Workspace, req: Change, allowed: set<string>, t: Trusted)
    ensures var after := Step(w, req, allowed, t);
            && (req.sets.index.None? ==> after.index == w.index) && (req.sets.codeIndex.None? ==> after.codeIndex == w.codeIndex)
            && (req.sets.roadmapIndex.None? ==> after.roadmapIndex == w.roadmapIndex) && (req.sets.roadmap.None? ==> after.roadmap == w.roadmap)
  {
  }

  lemma SharedAreSent(w: Workspace, req: Change, allowed: set<string>, t: Trusted, n: string)
    requires Has(allowed, n) && DistinctNorms(Entries(req.sets))
    ensures SharedOf(HoldingsOf(Step(w, req, allowed, t), t, n)) == Sent(w, req, allowed, t, n)
  {
    UnsentStays(w, req, allowed, t);
    if req.sets.index.Some? { EntriesAfter(w, req, allowed, t, n); }
    if req.sets.codeIndex.Some? { CodeIndexIsSent(w, req, allowed, t, n); }
    if req.sets.roadmapIndex.Some? { RoadmapIndexIsSent(w, req, allowed, t, n); }
    if req.sets.roadmap.Some? { RoadmapIsSent(w, req, allowed, t, n); }
  }

  /**
   Put-get for the shared keys. What a restricted caller sends of an allowed client, entries, code index, roadmap index
   and roadmap partitions, is what is stored of that client, what is not sent of a key that is sent is gone, and
   exactly this is read back.
   */
  lemma SharedWritesAreRead(w: Workspace, req: Change, allowed: set<string>, t: Trusted, n: string)
    requires Has(allowed, n) && DistinctNorms(Entries(req.sets))
    ensures SharedOf(HoldingsOf(Step(w, req, allowed, t), t, n)) == Sent(w, req, allowed, t, n)
    ensures SharedOf(HoldingsOf(Filter(Step(w, req, allowed, t), allowed, t), t, n)) == Sent(w, req, allowed, t, n)
  {
    SharedAreSent(w, req, allowed, t, n);
    ExactlyTheAllowedIsShown(Step(w, req, allowed, t), allowed, t, n);
  }

  // ---------- Keys of no client ----------

  /** A key for the firm's owners only, or of a partition that nobody owns. */
  predicate Closed(k: Key) {
    k.OwnerKey? || (k.FamilyKey? && k.seg.Unassigned?)
  }

  /** Such a key is shown to no restricted caller, and none writes it. */
  lemma ClosedToAll(w: Workspace, req: Change, allowed: set<string>, t: Trusted, k: Key)
    requires Closed(k)
    ensures k !in Filter(w, allowed, t).keys
    ensures KeyAt(Step(w, req, allowed, t).keys, k) == KeyAt(w.keys, k)
  {
    KeysAfter(w, req, allowed, t, k);
  }

  /** It keeps its value, or its absence, over every run of restricted writes, and is in nothing that is shown on the way. */
  lemma {:induction false} RunKeepsClosed(w: Workspace, reqs: seq<Request>, t: Trusted, k: Key, allowed: set<string>)
    requires Closed(k)
    ensures KeyAt(Run(w, reqs, t).keys, k) == KeyAt(w.keys, k)
    ensures k !in Filter(Run(w, reqs, t), allowed, t).keys
    decreases |reqs|
  {
    if reqs == [] {
      ClosedToAll(w, Change(w, {}), allowed, t, k);
    } else {
      ClosedToAll(w, reqs[0].change, reqs[0].allowed, t, k);
      RunKeepsClosed(Step(w, reqs[0].change, reqs[0].allowed, t), reqs[1..], t, k, allowed);
    }
  }

  /** A key without a client is shown to everybody as it is, and what anybody writes there lands. */
  lemma GlobalIsOpen(w: Workspace, req: Change, allowed: set<string>, t: Trusted, name: string)
    ensures var k := GlobalKey(name);
            && KeyAt(Filter(w, allowed, t).keys, k) == KeyAt(w.keys, k)
            && KeyAt(Step(w, req, allowed, t).keys, k) == After(KeyAt(w.keys, k), KeyAt(req.sets.keys, k), k in req.deletes, true)
  {
    KeysAfter(w, req, allowed, t, GlobalKey(name));
  }

  /** The field has a text, and that is not empty. */
  predicate Filled(v: Value, name: string) {
    v.Doc? && name in v.fields && v.fields[name].Text? && v.fields[name].s != ""
  }

  /** The client a value names, in `client` or else in `clientName`, is allowed. */
  predicate NamesOneOf(v: Value, allowed: set<string>) {
    if Filled(v, "client") then Has(allowed, Norm(v.fields["client"].s))
    else Filled(v, "clientName") && Has(allowed, Norm(v.fields["clientName"].s))
  }

  predicate ByValue(k: Key) {
    k.MiscKey? || k.Snapshots?
  }

  lemma ValueIsTheOwner(k: Key, v: Value, m: Maps, allowed: set<string>)
    requires ByValue(k)
    ensures Visible(Resolve(k, Some(v), m), allowed) <==> NamesOneOf(v, allowed)
  {
  }

  /**
   A key known by its value alone is shown exactly if the value names an allowed client; a value is written exactly if it
   does so itself, and removed exactly if what is stored does.
   */
  lemma ValueDecides(w: Workspace, req: Change, allowed: set<string>, t: Trusted, k: Key)
    requires ByValue(k)
    ensures KeyAt(Filter(w, allowed, t).keys, k) == if k in w.keys && NamesOneOf(w.keys[k], allowed) then Some(w.keys[k]) else None
    ensures KeyAt(Step(w, req, allowed, t).keys, k) ==
            if k in req.deletes && k in w.keys && NamesOneOf(w.keys[k], allowed) then None
            else if k in req.sets.keys && NamesOneOf(req.sets.keys[k], allowed) then Some(req.sets.keys[k])
            else KeyAt(w.keys, k)
  {
    var m := ScopeMaps(w, req.sets, t);
    KeysAfter(w, req, allowed, t, k);
    if k in w.keys {
      ValueIsTheOwner(k, w.keys[k], BuildMaps(w, t), allowed);
      ValueIsTheOwner(k, w.keys[k], m, allowed);
    }
    if k in req.sets.keys { ValueIsTheOwner(k, req.sets.keys[k], m, allowed); }
    assert Resolve(k, None, m).Unknown?;
  }

  /** The last briefing is the caller's by its norm, or is everybody's by that word; without a norm it is by its client's name. */
  predicate BriefingIsOurs(v: Value, allowed: set<string>) {
    v.Doc? &&
    (if "normKey" in v.fields && v.fields["normKey"].Text? then v.fields["normKey"].s == "GLOBAL" || Has(allowed, v.fields["normKey"].s)
     else Filled(v, "client") && Has(allowed, Norm(v.fields["client"].s)))
  }

  lemma BriefingIsTheOwners(v: Value, m: Maps, allowed: set<string>)
    ensures Visible(Resolve(LastBriefing, Some(v), m), allowed) <==> BriefingIsOurs(v, allowed)
  {
  }

  /** The last briefing is shown, written and removed exactly as it names the caller's clients, or everybody. */
  lemma BriefingDecides(w: Workspace, req: Change, allowed: set<string>, t: Trusted)
    ensures var k := LastBriefing;
            && KeyAt(Filter(w, allowed, t).keys, k) == (if k in w.keys && BriefingIsOurs(w.keys[k], allowed) then Some(w.keys[k]) else None)
            && KeyAt(Step(w, req, allowed, t).keys, k) ==
                 if k in req.deletes && k in w.keys && BriefingIsOurs(w.keys[k], allowed) then None
                 else if k in req.sets.keys && BriefingIsOurs(req.sets.keys[k], allowed) then Some(req.sets.keys[k])
                 else KeyAt(w.keys, k)
  {
    var k, m := LastBriefing, ScopeMaps(w, req.sets, t);
    KeysAfter(w, req, allowed, t, k);
    if k in w.keys {
      BriefingIsTheOwners(w.keys[k], BuildMaps(w, t), allowed);
      BriefingIsTheOwners(w.keys[k], m, allowed);
    }
    if k in req.sets.keys { BriefingIsTheOwners(req.sets.keys[k], m, allowed); }
    assert Resolve(k, None, m).Unknown?;
  }

  lemma {:induction false} NobodyHasEntries(es: seq<Entry>)
    ensures FilterEntries(es, {"", "UNKNOWN"}, true) == []
  {
    if es != [] { NobodyHasEntries(es[..|es| - 1]); }
  }

  /** No name, and the word for an unknown client, are nobody: to be allowed these grants no entry, and no key but the firm's. */
  lemma NobodyIsGrantedNothing(w: Workspace, t: Trusted, k: Key)
    ensures var nobody := {"", "UNKNOWN"};
            && Entries(Filter(w, nobody, t)) == []
            && (k in Filter(w, nobody, t).keys ==> Resolve(k, Some(w.keys[k]), BuildMaps(w, t)).Firm?)
  {
    NobodyHasEntries(Entries(w));
  }

  /** An engagement's record is stored under its own key, and nothing else is taken for one. */
  lemma RecordsExactly(k: Key)
    ensures IsRecord(k) <==> exists c :: k == RecordKey(c)
  {
    if IsRecord(k) { assert k == RecordKey(k.seg.id.code); }
  }
}
