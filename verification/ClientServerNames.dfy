/**
 The name of a client is the server's to write. Every write, an owner's included, has the names of
 known engagements put right on its way in, and every read on its way out.
 */
module ClientServerNames {
  import opened ClientNames
  import opened ClientScope
  import opened Options

  predicate Knows(t: Trusted, c: string) {
    c in t && t[c] != ""
  }

  function WithName(v: Value, name: string): Value {
    if v.Doc? then Doc(v.fields["client" := Text(name)]) else v
  }

  /** A stored value, with the current name if it is the record of a known engagement. */
  function EnforceValue(k: Key, v: Value, t: Trusted): Value {
    if IsRecord(k) && Knows(t, k.seg.id.code) then WithName(v, t[k.seg.id.code]) else v
  }

  function EnforceKeys(keys: map<Key, Value>, t: Trusted): map<Key, Value> {
    map k | k in keys :: EnforceValue(k, keys[k], t)
  }

  /** The norm under which an entry belongs: that of the code's current name, if the code is known. */
  function CurrentNorm(e: Entry, t: Trusted): string {
    if Knows(t, e.code) then Norm(t[e.code]) else e.norm
  }

  /** Set a norm's entry in place, or add it at the end. */
  function PutEntry(es: seq<Entry>, norm: string, code: string): seq<Entry> {
    if es == [] then [Entry(norm, code)]
    else if es[|es| - 1].norm == norm then es[..|es| - 1] + [Entry(norm, code)]
    else if EntryFor(es[..|es| - 1], norm).Some? then PutEntry(es[..|es| - 1], norm, code) + [es[|es| - 1]]
    else es + [Entry(norm, code)]
  }

  function EnforceIndex(es: seq<Entry>, t: Trusted): seq<Entry> {
    if es == [] then []
    else PutEntry(EnforceIndex(es[..|es| - 1], t), CurrentNorm(es[|es| - 1], t), es[|es| - 1].code)
  }

  /** The names of a request put right. */
  function Enforce(sets: Workspace, t: Trusted): Workspace {
    sets.(index := if sets.index.Some? then Some(EnforceIndex(sets.index.value, t)) else None, keys := EnforceKeys(sets.keys, t))
  }

  /** The workspace as a page is served it. */
  function Stamp(w: Workspace, t: Trusted): Workspace {
    w.(keys := EnforceKeys(w.keys, t))
  }

  /** A write by an owner (`None`), or by a caller restricted to some clients. */
  function Write(w: Workspace, req: Change, allowed: Option<set<string>>, t: Trusted): Workspace {
    var named := req.(sets := Enforce(req.sets, t));
    if allowed.None? then Apply(w, named) else Step(w, named, allowed.value, t)
  }

  datatype Request = Request(change: Change, allowed: Option<set<string>>)

  function WriteAll(w: Workspace, reqs: seq<Request>, t: Trusted): Workspace
    decreases |reqs|
  {
    if reqs == [] then w else WriteAll(Write(w, reqs[0].change, reqs[0].allowed, t), reqs[1..], t)
  }

  // ---------- The names stay the server's ----------

  ghost predicate NamedKeys(keys: map<Key, Value>, t: Trusted) {
    forall k | k in keys :: EnforceValue(k, keys[k], t) == keys[k]
  }

  ghost predicate NamedEntries(es: seq<Entry>, t: Trusted) {
    forall e | e in es :: e.norm == CurrentNorm(e, t)
  }

  /** Every record and every index entry of a known engagement carries the name the table gives it. */
  ghost predicate ServerNamed(w: Workspace, t: Trusted) {
    NamedKeys(w.keys, t) && NamedEntries(Entries(w), t)
  }

  lemma {:induction false} PutEntryMembers(es: seq<Entry>, norm: string, code: string)
    ensures forall e | e in PutEntry(es, norm, code) :: e in es || e == Entry(norm, code)
  {
    if es != [] {
      assert es == es[..|es| - 1] + [es[|es| - 1]];
      PutEntryMembers(es[..|es| - 1], norm, code);
    }
  }

  lemma {:induction false} EnforcedIndexIsNamed(es: seq<Entry>, t: Trusted)
    ensures NamedEntries(EnforceIndex(es, t), t)
  {
    if es != [] {
      EnforcedIndexIsNamed(es[..|es| - 1], t);
      PutEntryMembers(EnforceIndex(es[..|es| - 1], t), CurrentNorm(es[|es| - 1], t), es[|es| - 1].code);
    }
  }

  lemma {:induction false} AcceptedAreNamed(es: seq<Entry>, cur: Workspace, sets: Workspace, t: Trusted, allowed: set<string>)
    requires NamedEntries(es, t) && NamedEntries(Entries(cur), t)
    ensures NamedEntries(AcceptEntries(es, cur, sets, t, allowed), t)
  {
    if es != [] {
      var init, e := es[..|es| - 1], es[|es| - 1];
      assert es == init + [e];
      AcceptedAreNamed(init, cur, sets, t, allowed);
      EntryForIsThere(Entries(cur), e.norm);
    }
  }

  lemma EnforcedKeysAreNamed(keys: map<Key, Value>, t: Trusted)
    ensures NamedKeys(EnforceKeys(keys, t), t)
  {
  }

  lemma WriteKeepsEntries(w: Workspace, req: Change, allowed: Option<set<string>>, t: Trusted)
    requires NamedEntries(Entries(w), t)
    ensures NamedEntries(Entries(Write(w, req, allowed, t)), t)
  {
    var sets := Enforce(req.sets, t);
    EnforcedIndexIsNamed(Entries(req.sets), t);
    if allowed.Some? {
      FilterMembers(Entries(w), allowed.value, false);
      AcceptedAreNamed(Entries(sets), w, sets, t, allowed.value);
    }
  }

  lemma WriteKeepsKeys(w: Workspace, req: Change, allowed: Option<set<string>>, t: Trusted)
    requires NamedKeys(w.keys, t)
    ensures NamedKeys(Write(w, req, allowed, t).keys, t)
  {
    EnforcedKeysAreNamed(req.sets.keys, t);
  }

  /**
   No page can write a client's name. Over any run of writes by owners and restricted callers, whatever
   stale copies they send, every known engagement keeps the name the table gives it, in its record and in
   the index.
   */
  lemma {:induction false} NamesStayTheServers(w: Workspace, reqs: seq<Request>, t: Trusted)
    requires ServerNamed(w, t)
    ensures ServerNamed(WriteAll(w, reqs, t), t)
    decreases |reqs|
  {
    if reqs != [] {
      WriteKeepsEntries(w, reqs[0].change, reqs[0].allowed, t);
      WriteKeepsKeys(w, reqs[0].change, reqs[0].allowed, t);
      NamesStayTheServers(Write(w, reqs[0].change, reqs[0].allowed, t), reqs[1..], t);
    }
  }

  /** What a page is served carries the current names whatever is stored, and a workspace so named is served as it is. */
  lemma ServedNamesAreCurrent(w: Workspace, t: Trusted)
    ensures NamedKeys(Stamp(w, t).keys, t)
    ensures NamedKeys(w.keys, t) <==> Stamp(w, t) == w
    ensures Stamp(Stamp(w, t), t) == Stamp(w, t)
  {
    EnforcedKeysAreNamed(w.keys, t);
    if NamedKeys(w.keys, t) {
      assert EnforceKeys(w.keys, t) == w.keys;
    }
    assert EnforceKeys(EnforceKeys(w.keys, t), t) == EnforceKeys(w.keys, t);
  }

  // ---------- One entry for each norm ----------

  lemma {:induction false} EntryForNone(es: seq<Entry>, norm: string)
    requires EntryFor(es, norm).None?
    ensures forall e | e in es :: e.norm != norm
  {
    if es != [] {
      assert es == es[..|es| - 1] + [es[|es| - 1]];
      EntryForNone(es[..|es| - 1], norm);
    }
  }

  lemma {:induction false} PutIsDistinct(es: seq<Entry>, norm: string, code: string)
    requires DistinctNorms(es)
    ensures DistinctNorms(PutEntry(es, norm, code))
  {
    if es != [] {
      var init, last := es[..|es| - 1], es[|es| - 1];
      InitIsDistinct(es);
      if last.norm == norm {
        SnocIsDistinct(init, Entry(norm, code));
      } else if EntryFor(init, norm).Some? {
        PutIsDistinct(init, norm, code);
        PutEntryMembers(init, norm, code);
        SnocIsDistinct(PutEntry(init, norm, code), last);
      } else {
        EntryForNone(init, norm);
        assert es == init + [last];
        SnocIsDistinct(es, Entry(norm, code));
      }
    }
  }

  /** Whatever index is sent, an enforced one has one entry for each norm. */
  lemma {:induction false} EnforcedIsDistinct(es: seq<Entry>, t: Trusted)
    ensures DistinctNorms(EnforceIndex(es, t))
  {
    if es != [] {
      EnforcedIsDistinct(es[..|es| - 1], t);
      PutIsDistinct(EnforceIndex(es[..|es| - 1], t), CurrentNorm(es[|es| - 1], t), es[|es| - 1].code);
    }
  }

  /** So over any run of writes by owners and restricted callers the stored index keeps one entry for each norm. */
  lemma {:induction false} IndexStaysDistinct(w: Workspace, reqs: seq<Request>, t: Trusted)
    requires DistinctNorms(Entries(w))
    ensures DistinctNorms(Entries(WriteAll(w, reqs, t)))
    decreases |reqs|
  {
    if reqs != [] {
      WriteKeepsDistinct(w, reqs[0].change, reqs[0].allowed, t);
      IndexStaysDistinct(Write(w, reqs[0].change, reqs[0].allowed, t), reqs[1..], t);
    }
  }

  lemma WriteKeepsDistinct(w: Workspace, req: Change, allowed: Option<set<string>>, t: Trusted)
    requires DistinctNorms(Entries(w))
    ensures DistinctNorms(Entries(Write(w, req, allowed, t)))
  {
    EnforcedIsDistinct(Entries(req.sets), t);
    if allowed.Some? {
      StepKeepsDistinct(w, req.(sets := Enforce(req.sets, t)), allowed.value, t);
    }
  }

  // ---------- What putting the index right can drop ----------

  /** The code of the last entry that belongs under `n`. */
  function LastUnder(es: seq<Entry>, t: Trusted, n: string): Option<string> {
    if es == [] then None
    else if CurrentNorm(es[|es| - 1], t) == n then Some(es[|es| - 1].code)
    else LastUnder(es[..|es| - 1], t, n)
  }

  lemma {:induction false} PutEntryFor(es: seq<Entry>, norm: string, code: string, n: string)
    ensures EntryFor(PutEntry(es, norm, code), n) == if n == norm then Some(code) else EntryFor(es, n)
  {
    if es != [] {
      var init, last := es[..|es| - 1], es[|es| - 1];
      if last.norm == norm {
        assert (init + [Entry(norm, code)])[..|init|] == init;
      } else if EntryFor(init, norm).Some? {
        PutEntryFor(init, norm, code, n);
        var put := PutEntry(init, norm, code);
        assert (put + [last])[..|put|] == put;
      } else {
        EntryForLast(es, norm);
        assert (es + [Entry(norm, code)])[..|es|] == es;
      }
    }
  }

  lemma EntryForLast(es: seq<Entry>, n: string)
    requires es != [] && es[|es| - 1].norm != n
    ensures EntryFor(es, n) == EntryFor(es[..|es| - 1], n)
  {
  }

  /**
   An enforced index holds, for each norm, the code of the last entry that belongs under it; so of two
   engagements of one client that are indexed under different norms only the later one stays indexed.
   */
  lemma {:induction false} LastCodeIsKept(es: seq<Entry>, t: Trusted, n: string)
    ensures EntryFor(EnforceIndex(es, t), n) == LastUnder(es, t, n)
  {
    if es != [] {
      LastCodeIsKept(es[..|es| - 1], t, n);
      PutEntryFor(EnforceIndex(es[..|es| - 1], t), CurrentNorm(es[|es| - 1], t), es[|es| - 1].code, n);
    }
  }

  lemma OneClientOneEntry(t: Trusted, a: Entry, b: Entry)
    requires Knows(t, a.code) && Knows(t, b.code) && a.code != b.code && Norm(t[a.code]) == Norm(t[b.code])
    ensures EnforceIndex([a, b], t) == [Entry(Norm(t[b.code]), b.code)]
  {
    assert [a, b][..1] == [a] && [a][..0] == [];
    assert EnforceIndex([], t) == [];
    assert EnforceIndex([a], t) == [Entry(Norm(t[a.code]), a.code)];
    assert [Entry(Norm(t[a.code]), a.code)][..0] == [];
  }

  /** An index that is right is left as it is. */
  lemma {:induction false} RightIndexIsKept(es: seq<Entry>, t: Trusted)
    requires NamedEntries(es, t) && DistinctNorms(es)
    ensures EnforceIndex(es, t) == es
  {
    if es != [] {
      var init, last := es[..|es| - 1], es[|es| - 1];
      assert es == init + [last];
      RightIndexIsKept(init, t);
      NormIsNew(init, last);
      PutNew(init, last.norm, last.code);
    }
  }

  lemma NormIsNew(init: seq<Entry>, last: Entry)
    requires DistinctNorms(init + [last])
    ensures EntryFor(init, last.norm).None?
  {
    EntryForIsThere(init, last.norm);
    assert forall i | 0 <= i < |init| :: (init + [last])[i] == init[i] && init[i].norm != (init + [last])[|init|].norm;
  }

  lemma PutNew(es: seq<Entry>, norm: string, code: string)
    requires EntryFor(es, norm).None?
    ensures PutEntry(es, norm, code) == es + [Entry(norm, code)]
  {
    if es != [] { EntryForLast(es, norm); }
  }

  // ---------- The loops ----------

  /** Put a request's names right, and say which records were corrected. */
  method EnforceServerNames(sets: Workspace, t: Trusted) returns (out: Workspace, corrected: set<Key>)
    ensures out == Enforce(sets, t)
    ensures corrected == set k | k in sets.keys && EnforceValue(k, sets.keys[k], t) != sets.keys[k]
  {
    var keys := sets.keys;
    corrected := {};
    var todo := sets.keys.Keys;
    while todo != {}
      invariant todo <= sets.keys.Keys && keys.Keys == sets.keys.Keys
      invariant forall k | k in keys :: keys[k] == if k in todo then sets.keys[k] else EnforceValue(k, sets.keys[k], t)
      invariant corrected == set k | k in sets.keys && k !in todo && EnforceValue(k, sets.keys[k], t) != sets.keys[k]
      decreases todo
    {
      var k :| k in todo;
      todo := todo - {k};
      if !IsRecord(k) || !Knows(t, k.seg.id.code) { continue; }
      var rec := sets.keys[k];
      if !rec.Doc? { continue; }
      var name := t[k.seg.id.code];
      if "client" in rec.fields && rec.fields["client"] == Text(name) {
        assert rec.fields["client" := Text(name)] == rec.fields;
        continue;
      }
      keys := keys[k := Doc(rec.fields["client" := Text(name)])];
      corrected := corrected + {k};
      assert keys[k].fields["client"] == Text(name);
    }
    var index := sets.index;
    if sets.index.Some? {
      var fixed := FixIndex(sets.index.value, t);
      index := Some(fixed);
    }
    out := sets.(index := index, keys := keys);
  }

  method FixIndex(es: seq<Entry>, t: Trusted) returns (fixed: seq<Entry>)
    ensures fixed == EnforceIndex(es, t) && NamedEntries(fixed, t)
  {
    fixed := [];
    for i := 0 to |es|
      invariant fixed == EnforceIndex(es[..i], t)
    {
      assert es[..i + 1][..i] == es[..i];
      var want := if Knows(t, es[i].code) then Norm(t[es[i].code]) else es[i].norm;
      fixed := PutEntry(fixed, want, es[i].code);
    }
    assert es[..|es|] == es;
    EnforcedIndexIsNamed(es, t);
  }

  /** Nothing but names is touched: every other field of a record, every other key, and every index entry of an unknown code. */
  lemma OnlyNamesAreTouched(sets: Workspace, t: Trusted, k: Key)
    requires k in sets.keys
    ensures var v, v' := sets.keys[k], Enforce(sets, t).keys[k];
            && (v'.Doc? <==> v.Doc?)
            && (v.Doc? ==> forall f | f != "client" :: f in v.fields <==> f in v'.fields)
            && (v.Doc? ==> forall f | f != "client" && f in v.fields :: v'.fields[f] == v.fields[f])
            && (!IsRecord(k) || !Knows(t, k.seg.id.code) ==> v' == v)
  {
  }
}
