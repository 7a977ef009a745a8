/**
 What it means that brackets nest, by a grammar: what is left open after them, and what they are made of, are read
 off the same derivation.
 */
module JsonNesting {
  import opened JsonRepair
  import opened Options

  /** A pair of brackets, curly or square, and the pairs inside it. */
  datatype Pair = Pair(curly: bool, inner: seq<Pair>)

  function OpenerOf(curly: bool): char {
    if curly then '{' else '['
  }

  function Around(curly: bool, t: string): string {
    [OpenerOf(curly)] + t + [if curly then '}' else ']']
  }

  /** Pairs, written out. */
  function TextOf(ps: seq<Pair>): string {
    if ps == [] then "" else TextOf(ps[..|ps| - 1]) + Around(ps[|ps| - 1].curly, TextOf(ps[|ps| - 1].inner))
  }

  /** Pairs, then an opening bracket that is not closed, then pairs again, and so on. */
  datatype Document = Start(ps: seq<Pair>) | Then(before: Document, curly: bool, ps: seq<Pair>)

  function Written(d: Document): string {
    match d
    case Start(ps) => TextOf(ps)
    case Then(before, curly, ps) => Written(before) + [OpenerOf(curly)] + TextOf(ps)
  }

  function LeftOpen(d: Document): string {
    match d
    case Start(_) => ""
    case Then(before, curly, _) => LeftOpen(before) + [OpenerOf(curly)]
  }

  function AddPair(d: Document, p: Pair): Document {
    match d
    case Start(ps) => Start(ps + [p])
    case Then(before, curly, ps) => Then(before, curly, ps + [p])
  }

  lemma OpenSnoc(bs: string, ch: char)
    ensures Open(bs + [ch]) ==
            if Open(bs).None? then None
            else
              var st := Open(bs).value;
              if Opener(ch) then Some(st + [ch])
              else if st != "" && Closes(st[|st| - 1], ch) then Some(st[..|st| - 1])
              else None
  {
    assert (bs + [ch])[..|bs|] == bs;
  }

  lemma BracketIsClosed(bs: string, st: string, curly: bool)
    requires Open(bs) == Some(st + [OpenerOf(curly)])
    ensures Open(bs + [if curly then '}' else ']']) == Some(st)
  {
    var open := st + [OpenerOf(curly)];
    OpenSnoc(bs, if curly then '}' else ']');
    assert open[|open| - 1] == OpenerOf(curly) && open[..|open| - 1] == st;
  }

  lemma PairIsClosed(a: string, curly: bool, t: string)
    requires Open(a).Some? && Open(a + [OpenerOf(curly)] + t) == Open(a + [OpenerOf(curly)])
    ensures Open(a + Around(curly, t)) == Open(a)
  {
    OpenSnoc(a, OpenerOf(curly));
    BracketIsClosed(a + [OpenerOf(curly)] + t, Open(a).value, curly);
    AroundIsAppended(a, curly, t);
  }

  lemma AroundIsAppended(a: string, curly: bool, t: string)
    ensures a + Around(curly, t) == (a + [OpenerOf(curly)] + t) + [if curly then '}' else ']']
  {
  }

  /** Whole pairs leave open what was open before them. */
  lemma {:induction false} PairsLeaveNoneOpen(bs: string, ps: seq<Pair>)
    requires Open(bs).Some?
    ensures Open(bs + TextOf(ps)) == Open(bs)
    decreases ps
  {
    if ps == [] {
      assert bs + TextOf(ps) == bs;
    } else {
      var init, p := ps[..|ps| - 1], ps[|ps| - 1];
      var a := bs + TextOf(init);
      PairsLeaveNoneOpen(bs, init);
      OpenSnoc(a, OpenerOf(p.curly));
      PairsLeaveNoneOpen(a + [OpenerOf(p.curly)], p.inner);
      PairIsClosed(a, p.curly, TextOf(p.inner));
      Regroup(bs, TextOf(init), Around(p.curly, TextOf(p.inner)));
    }
  }

  lemma Regroup(a: string, b: string, c: string)
    ensures a + (b + c) == a + b + c
  {
  }

  lemma TextSnoc(ps: seq<Pair>, p: Pair)
    ensures TextOf(ps + [p]) == TextOf(ps) + Around(p.curly, TextOf(p.inner))
  {
    assert (ps + [p])[..|ps|] == ps;
  }

  lemma PairIsAdded(d: Document, p: Pair)
    ensures Written(AddPair(d, p)) == Written(d) + Around(p.curly, TextOf(p.inner)) && LeftOpen(AddPair(d, p)) == LeftOpen(d)
  {
    TextSnoc(d.ps, p);
    if d.Then? {
      Regroup(Written(d.before) + [OpenerOf(d.curly)], TextOf(d.ps), Around(p.curly, TextOf(p.inner)));
    }
  }

  lemma BracketOpens(d: Document, curly: bool)
    ensures Written(Then(d, curly, [])) == Written(d) + [OpenerOf(curly)]
  {
    assert Written(d) + [OpenerOf(curly)] + "" == Written(d) + [OpenerOf(curly)];
  }

  /** Closing the last open bracket makes a pair of it and of what came after it. */
  lemma BracketCloses(d: Document)
    requires d.Then?
    ensures Written(AddPair(d.before, Pair(d.curly, d.ps))) == Written(d) + [if d.curly then '}' else ']']
    ensures LeftOpen(AddPair(d.before, Pair(d.curly, d.ps))) == LeftOpen(d)[..|LeftOpen(d)| - 1]
  {
    PairIsAdded(d.before, Pair(d.curly, d.ps));
    Regroup(Written(d.before), [OpenerOf(d.curly)] + TextOf(d.ps), [if d.curly then '}' else ']']);
    Regroup(Written(d.before), [OpenerOf(d.curly)], TextOf(d.ps));
    assert LeftOpen(d)[..|LeftOpen(d)| - 1] == LeftOpen(d.before);
  }

  /** What leaves something open is such a document. */
  lemma {:induction false} OpenIsDocument(bs: string)
    requires Open(bs).Some?
    ensures exists d :: Written(d) == bs && LeftOpen(d) == Open(bs).value
  {
    if bs == "" {
      assert Written(Start([])) == "" && LeftOpen(Start([])) == "";
    } else {
      var init, ch := bs[..|bs| - 1], bs[|bs| - 1];
      assert bs == init + [ch];
      OpenSnoc(init, ch);
      OpenIsDocument(init);
      var d :| Written(d) == init && LeftOpen(d) == Open(init).value;
      if Opener(ch) {
        BracketOpens(d, ch == '{');
        assert Written(Then(d, ch == '{', [])) == bs;
      } else {
        BracketCloses(d);
        assert Written(AddPair(d.before, Pair(d.curly, d.ps))) == bs;
      }
    }
  }

  /** Brackets nest and are all closed exactly if they are pairs, written out. */
  lemma NestingIsPairing(bs: string)
    ensures Open(bs) == Some("") <==> exists ps :: TextOf(ps) == bs
  {
    if Open(bs) == Some("") {
      OpenIsDocument(bs);
      var d :| Written(d) == bs && LeftOpen(d) == "";
      assert TextOf(d.ps) == bs;
    }
    if ps :| TextOf(ps) == bs {
      PairsLeaveNoneOpen("", ps);
      assert "" + TextOf(ps) == bs;
    }
  }
}
