/** The passes over the interviews that build the memory, and the loop that reads it out for one person. */
module MemoryLoops {
  import opened Options
  import opened Memory

  /** The words kept of one interview: the first statement on each dimension. */
  method TextByDim(fs: seq<Statement>) returns (texts: map<string, string>)
    ensures forall d | d != "" :: (d in texts <==> TextOn(fs, d) != "") && (d in texts ==> texts[d] == TextOn(fs, d))
  {
    texts := map[];
    for q := 0 to |fs|
      invariant forall d | d != "" :: (d in texts <==> TextOn(fs[..q], d) != "") && (d in texts ==> texts[d] == TextOn(fs[..q], d))
    {
      assert fs[..q + 1][..q] == fs[..q];
      var fdim, ftext := fs[q].dimension, fs[q].text;
      if fdim == "" || ftext == "" { continue; }
      if fdim !in texts { texts := texts[fdim := ftext]; }
    }
    assert fs[..|fs|] == fs;
  }

  /** A score of nothing is no score; an absent coverage is not a coverage of zero. */
  method EvidenceOn(it: Item, texts: map<string, string>, dim: string) returns (e: Entry)
    requires (dim in texts <==> TextOn(it.iv.findings, dim) != "") && (dim in texts ==> texts[dim] == TextOn(it.iv.findings, dim))
    ensures e == EntryOn(it, dim) && (e.score.None? && e.text == "" <==> !Addressed(it, dim))
  {
    var score := if dim in it.iv.scores && it.iv.scores[dim] > 0.0 then Some(it.iv.scores[dim]) else None;
    var cov := if dim in it.iv.coverage then Some(it.iv.coverage[dim]) else None;
    e := Entry(it.round, it.roundId, score, cov, if dim in texts then texts[dim] else "");
  }

  /** Add one interview's evidence to its person's history, dimension by dimension. */
  method AddInterview(p: Record, it: Item) returns (r: Record)
    ensures r == AddItem(p, it)
  {
    var rounds := p.rounds;
    if it.round !in rounds { rounds := rounds + [it.round]; }
    var texts := TextByDim(it.iv.findings);
    var history := p.history;
    for d := 0 to |DIM_CODES|
      invariant history == AddDims(p.history, it, d)
    {
      var dim := DIM_CODES[d];
      var e := EvidenceOn(it, texts, dim);
      if e.score.None? && e.text == "" { continue; }
      if dim !in history { history := history[dim := []]; }
      history := history[dim := history[dim] + [e]];
    }
    r := Record(p.role, p.person, rounds, history);
  }

  /** The first pass: everyone's history, in order of first appearance. */
  method CollectPeople(items: seq<Item>) returns (t: Table)
    ensures t == Collect(items)
  {
    var order: seq<string> := [];
    var people: map<string, Record> := map[];
    for f := 0 to |items|
      invariant Table(order, people) == Collect(items[..f])
    {
      assert items[..f + 1][..f] == items[..f];
      var it := items[f];
      var key := PersonKey(it.iv);
      if key == "" { continue; }
      if key !in people {
        people := people[key := NewRecord(it)];
        order := order + [key];
      }
      var r := AddInterview(people[key], it);
      people := people[key := r];
    }
    assert items[..|items|] == items;
    t := Table(order, people);
  }

  /** Who is left once those without evidence are dropped. */
  method DropShells(t: Table) returns (order: seq<string>)
    ensures order == WithEvidence(t, t.order)
  {
    order := [];
    for i := 0 to |t.order|
      invariant order == WithEvidence(t, t.order[..i])
    {
      assert t.order[..i + 1][..i] == t.order[..i];
      var k := t.order[i];
      if k in t.people && t.people[k].history != map[] { order := order + [k]; }
    }
    assert t.order[..|t.order|] == t.order;
  }

  /** One dimension of the ambient view. */
  method AmbientLines(m: Memory, key: string, dim: string) returns (texts: seq<string>)
    ensures texts == AmbientOn(m, key, dim)
  {
    var lines: seq<Line> := [];
    for i := 0 to |m.order|
      invariant lines == Lines(m, m.order[..i], key, dim)
    {
      assert m.order[..i + 1][..i] == m.order[..i];
      var pk := m.order[i];
      assert LineOf(m, pk, key, dim) == [] ==> lines + LineOf(m, pk, key, dim) == lines;
      if pk == key { continue; }
      if pk !in m.people || dim !in m.people[pk].dims || m.people[pk].dims[dim].latest.text == "" { continue; }
      lines := lines + [Line(m.people[pk].dims[dim].latest.round, m.people[pk].dims[dim].latest.text)];
    }
    assert m.order[..|m.order|] == m.order;
    var sorted := SortLines(lines);
    texts := Texts(if |sorted| < AMBIENT_PER_DIM then sorted else sorted[..AMBIENT_PER_DIM]);
  }
}
