/**
 Whole writes, with the names put right on the way in: an owner's is stored as it was sent, and a run of
 restricted ones is a run of scoped writes, with all that such runs keep.
 */
module ClientWrites {
  import opened ClientNames
  import opened ClientScope
  import opened Options
  import I = ClientIsolation
  import N = ClientServerNames

  /** The value as it was sent; of the record of a known engagement with the client's current name. */
  ghost predicate StoredAsSent(k: Key, sent: Value, stored: Value, t: Trusted) {
    if IsRecord(k) && k.seg.id.code in t && t[k.seg.id.code] != "" && sent.Doc?
    then stored.Doc? && stored.fields == sent.fields["client" := Text(t[k.seg.id.code])]
    else stored == sent
  }

  /**
   An owner's write lands, whole: each shared key and each value that was sent, with the names put right, each key that was
   to go gone, and all else as it was.
   */
  lemma OwnersWriteLands(w: Workspace, req: Change, t: Trusted, k: Key)
    ensures var r := N.Write(w, req, None, t);
            && r.index == (if req.sets.index.Some? then Some(N.EnforceIndex(req.sets.index.value, t)) else w.index)
            && r.codeIndex == (if req.sets.codeIndex.Some? then req.sets.codeIndex else w.codeIndex)
            && r.roadmapIndex == (if req.sets.roadmapIndex.Some? then req.sets.roadmapIndex else w.roadmapIndex)
            && r.roadmap == (if req.sets.roadmap.Some? then req.sets.roadmap else w.roadmap)
            && (k in r.keys <==> k !in req.deletes && (k in w.keys || k in req.sets.keys))
            && (k in r.keys && k in req.sets.keys ==> StoredAsSent(k, req.sets.keys[k], r.keys[k], t))
            && (k in r.keys && k !in req.sets.keys ==> r.keys[k] == w.keys[k])
  {
  }

  /** Writes take effect one after the other, the last on top. */
  lemma {:induction false} WritesInTurn(w: Workspace, reqs: seq<N.Request>, last: N.Request, t: Trusted)
    ensures N.WriteAll(w, reqs + [last], t) == N.Write(N.WriteAll(w, reqs, t), last.change, last.allowed, t)
    decreases |reqs|
  {
    if reqs == [] {
      assert [] + [last] == [last] && [last][1..] == [];
      assert N.WriteAll(N.Write(w, last.change, last.allowed, t), [], t) == N.Write(w, last.change, last.allowed, t);
    } else {
      assert (reqs + [last])[0] == reqs[0] && (reqs + [last])[1..] == reqs[1..] + [last];
      WritesInTurn(N.Write(w, reqs[0].change, reqs[0].allowed, t), reqs[1..], last, t);
    }
  }

  /** The requests of restricted callers, with the names put right. */
  function Scoped(reqs: seq<N.Request>, t: Trusted): seq<I.Request>
    requires forall i | 0 <= i < |reqs| :: reqs[i].allowed.Some?
  {
    if reqs == [] then []
    else [I.Request(reqs[0].change.(sets := N.Enforce(reqs[0].change.sets, t)), reqs[0].allowed.value)] + Scoped(reqs[1..], t)
  }

  lemma {:induction false} RestrictedIsScoped(w: Workspace, reqs: seq<N.Request>, t: Trusted)
    requires forall i | 0 <= i < |reqs| :: reqs[i].allowed.Some?
    ensures N.WriteAll(w, reqs, t) == I.Run(w, Scoped(reqs, t), t)
    ensures |Scoped(reqs, t)| == |reqs| && forall i | 0 <= i < |reqs| :: Scoped(reqs, t)[i].allowed == reqs[i].allowed.value
    decreases |reqs|
  {
    if reqs != [] {
      RestrictedIsScoped(N.Write(w, reqs[0].change, reqs[0].allowed, t), reqs[1..], t);
    }
  }

  /**
   Isolation of whole writes: a run of writes by restricted callers, none of whom is allowed the client, leaves all the shared
   keys hold for it, and every key that a row addresses to it, as they were.
   */
  lemma RestrictedWritesKeep(w: Workspace, reqs: seq<N.Request>, t: Trusted, n: string, k: Key)
    requires n != "" && forall i | 0 <= i < |reqs| :: reqs[i].allowed.Some? && n !in reqs[i].allowed.value
    ensures I.SharedOf(I.HoldingsOf(N.WriteAll(w, reqs, t), t, n)) == I.SharedOf(I.HoldingsOf(w, t, n))
    ensures I.AddressedTo(k, t) == Some(n) && (ReadAsCode(k) ==> CodeText(k.seg.id) in t) ==>
              KeyAt(N.WriteAll(w, reqs, t).keys, k) == KeyAt(w.keys, k)
  {
    RestrictedIsScoped(w, reqs, t);
    I.RunKeepsHoldings(w, Scoped(reqs, t), t, n);
    if I.AddressedTo(k, t) == Some(n) && (ReadAsCode(k) ==> CodeText(k.seg.id) in t) {
      I.RunKeepsRowed(w, Scoped(reqs, t), t, n, k);
    }
  }
}
