/** The uplink capture: a fixed ring buffer that holds the last samples that went on the wire. */
module CaptureRing {
  import opened Numbers

  /** The last `n` samples, or all of them when there are fewer. */
  function LastN(s: seq<int>, n: nat): (r: seq<int>)
    ensures |r| == Min(n, |s|)
  {
    s[|s| - Min(n, |s|)..]
  }

  /** What is kept does not depend on how the samples were cut into frames. */
  lemma CaptureInPieces(s: seq<int>, t: seq<int>, n: nat)
    ensures LastN(LastN(s, n) + t, n) == LastN(s + t, n)
  {
  }

  /** Reading back fewer seconds gives the end of what reading back more gives. */
  lemma ShorterIsTail(s: seq<int>, n: nat, k: nat)
    requires k <= n
    ensures LastN(LastN(s, n), k) == LastN(s, k)
  {
  }

  /** The slot of the sample that is `k` before the newest. */
  function SlotBack(pos: nat, k: nat, size: nat): (r: nat)
    requires pos < size && k < size
    ensures r < size
  {
    if k < pos then pos - 1 - k else pos - 1 - k + size
  }

  lemma WrapsOnce(x: nat, size: nat)
    requires 0 < size && x < 2 * size
    ensures x % size == if x < size then x else x - size
  {
    if x >= size {
      assert x == size + (x - size);
    }
  }

  class Capture {
    const cap: array<int>
    var pos: nat
    var filled: nat
    ghost var sent: seq<int>

    ghost predicate Valid()
      reads this, cap
    {
      && cap.Length > 0 && pos < cap.Length && filled == Min(cap.Length, |sent|)
      && forall k | 0 <= k < filled :: cap[SlotBack(pos, k, cap.Length)] == sent[|sent| - 1 - k]
    }

    /** The samples held. */
    ghost function Contents(): seq<int>
      reads this, cap
    {
      LastN(sent, cap.Length)
    }

    constructor (size: nat)
      requires size > 0
      ensures Valid() && fresh(cap) && cap.Length == size && sent == []
    {
      cap := new int[size];
      pos, filled, sent := 0, 0, [];
    }

    method PutSample(x: int)
      requires Valid()
      modifies this, cap
      ensures Valid() && sent == old(sent) + [x]
    {
      cap[pos] := x;
      ghost var was := pos;
      WrapsOnce(pos + 1, cap.Length);
      pos := (pos + 1) % cap.Length;
      filled := Min(cap.Length, filled + 1);
      sent := sent + [x];
      assert forall k | 0 < k < filled :: SlotBack(pos, k, cap.Length) == SlotBack(was, k - 1, cap.Length) != was;
    }

    /** Keep one frame that went on the wire, however long it is. */
    method Put(pcm: seq<int>)
      requires Valid()
      modifies this, cap
      ensures Valid() && sent == old(sent) + pcm
      ensures Contents() == LastN(old(Contents()) + pcm, cap.Length)
    {
      for i := 0 to |pcm|
        invariant Valid() && sent == old(sent) + pcm[..i]
      {
        PutSample(pcm[i]);
      }
      assert pcm[..|pcm|] == pcm;
      CaptureInPieces(old(sent), pcm, cap.Length);
    }

    /** The captured uplink, oldest first: exactly the last samples sent. */
    method CapturedUplink(samples: nat) returns (out: seq<int>)
      requires Valid()
      ensures out == LastN(sent, Min(samples, cap.Length)) == LastN(Contents(), samples)
    {
      var want := Min(filled, samples);
      var size := cap.Length;
      WrapsOnce(pos + size - want, size);
      var start := (pos + size - want) % size;
      out := [];
      for i := 0 to want
        invariant out == LastN(sent, want)[..i]
      {
        WrapsOnce(start + i, size);
        assert (start + i) % size == SlotBack(pos, want - 1 - i, size);
        out := out + [cap[(start + i) % size]];
      }
    }
  }
}
