/**
 What an engagement remembers, person by person and dimension by dimension, and the two projections
 of it: a person's own material, and what everyone else holds with the speakers taken out.
 */
module Memory {
  import opened Attributions
  import opened Options

  const DIM_CODES: seq<string> := ["D1", "D2", "D3", "D4", "D5", "D6", "D7"]
  const AMBIENT_PER_DIM: nat := 2

  datatype Statement = Statement(dimension: string, text: string)

  datatype Interview = Interview(
    role: string, person: string, scores: map<string, real>, coverage: map<string, real>, findings: seq<Statement>)

  datatype Round = Round(number: Option<int>, id: string, interviews: seq<Interview>)

  function PersonKey(iv: Interview): string {
    if iv.person != "" then iv.role + "||" + iv.person else iv.role
  }

  // ---------- The interviews in round order ----------

  predicate Before(a: Round, b: Round) {
    a.number.Some? && (b.number.None? || a.number.value < b.number.value)
  }

  /** Put a round after every round that is not after it. */
  function Insert(rounds: seq<Round>, r: Round): seq<Round> {
    if rounds == [] then [r]
    else if Before(r, rounds[|rounds| - 1]) then Insert(rounds[..|rounds| - 1], r) + [rounds[|rounds| - 1]]
    else rounds + [r]
  }

  /** Numbered rounds ascending, then the others as they came. */
  function SortRounds(rounds: seq<Round>): seq<Round> {
    if rounds == [] then [] else Insert(SortRounds(rounds[..|rounds| - 1]), rounds[|rounds| - 1])
  }

  /** An interview and the round it belongs to; an unnumbered round counts by its place. */
  datatype Item = Item(round: int, roundId: string, iv: Interview)

  function ItemsIn(r: Round, number: int, ivs: seq<Interview>): seq<Item> {
    if ivs == [] then [] else ItemsIn(r, number, ivs[..|ivs| - 1]) + [Item(number, r.id, ivs[|ivs| - 1])]
  }

  function Flatten(rounds: seq<Round>): seq<Item> {
    if rounds == [] then []
    else
      var r := rounds[|rounds| - 1];
      Flatten(rounds[..|rounds| - 1]) + ItemsIn(r, if r.number.Some? then r.number.value else |rounds|, r.interviews)
  }

  // ---------- One person's record ----------

  datatype Entry = Entry(round: int, roundId: string, score: Option<real>, coverage: Option<real>, text: string)

  datatype Record = Record(role: string, person: string, rounds: seq<int>, history: map<string, seq<Entry>>)

  /** The first statement the interview makes on the dimension. */
  function TextOn(fs: seq<Statement>, dim: string): string {
    if fs == [] then ""
    else
      var before, last := TextOn(fs[..|fs| - 1], dim), fs[|fs| - 1];
      if before == "" && last.dimension == dim then last.text else before
  }

  /** The statement says something on the dimension. */
  predicate SaidOn(fs: seq<Statement>, i: int, dim: string) {
    0 <= i < |fs| && fs[i].dimension == dim && fs[i].text != ""
  }

  lemma {:induction false} FirstIsKept(fs: seq<Statement>, dim: string)
    ensures TextOn(fs, dim) == "" ==> forall i :: !SaidOn(fs, i, dim)
    ensures TextOn(fs, dim) != "" ==> exists i :: SaidOn(fs, i, dim) && fs[i].text == TextOn(fs, dim) && forall j | j < i :: !SaidOn(fs, j, dim)
  {
    if fs != [] {
      var init, n := fs[..|fs| - 1], |fs| - 1;
      FirstIsKept(init, dim);
      forall j | j < n ensures SaidOn(fs, j, dim) <==> SaidOn(init, j, dim) { }
      if TextOn(init, dim) != "" {
        var i :| SaidOn(init, i, dim) && init[i].text == TextOn(init, dim) && forall j | j < i :: !SaidOn(init, j, dim);
        assert SaidOn(fs, i, dim) && fs[i].text == TextOn(fs, dim);
      } else if SaidOn(fs, n, dim) {
        assert fs[n].text == TextOn(fs, dim);
      }
    }
  }

  /**
   Which statement is kept: of all that say something on the dimension the first, so it is the latest exactly when
   the first and the last of them say the same.
   */
  lemma KeptIsLatest(fs: seq<Statement>, dim: string, first: nat, last: nat)
    requires SaidOn(fs, first, dim) && forall j | j < first :: !SaidOn(fs, j, dim)
    requires SaidOn(fs, last, dim) && forall j | j > last :: !SaidOn(fs, j, dim)
    ensures TextOn(fs, dim) == fs[first].text
    ensures TextOn(fs, dim) == fs[last].text <==> fs[first].text == fs[last].text
  {
    FirstIsKept(fs, dim);
  }

  /** Two statements on one dimension: the later is not the one remembered. */
  lemma LaterIsForgotten(dim: string, a: string, b: string)
    requires a != "" && b != "" && a != b
    ensures TextOn([Statement(dim, a), Statement(dim, b)], dim) == a != b
  {
    KeptIsLatest([Statement(dim, a), Statement(dim, b)], dim, 0, 1);
  }

  function ScoreOn(iv: Interview, dim: string): Option<real> {
    if dim in iv.scores && iv.scores[dim] > 0.0 then Some(iv.scores[dim]) else None
  }

  function EntryOn(it: Item, dim: string): Entry {
    Entry(it.round, it.roundId, ScoreOn(it.iv, dim), if dim in it.iv.coverage then Some(it.iv.coverage[dim]) else None,
          TextOn(it.iv.findings, dim))
  }

  /** Nothing said and nothing scored is no evidence. */
  predicate Addressed(it: Item, dim: string) {
    ScoreOn(it.iv, dim).Some? || TextOn(it.iv.findings, dim) != ""
  }

  function HistoryOf(h: map<string, seq<Entry>>, dim: string): seq<Entry> {
    if dim in h then h[dim] else []
  }

  function AddDims(h: map<string, seq<Entry>>, it: Item, n: nat): map<string, seq<Entry>>
    requires n <= |DIM_CODES|
  {
    if n == 0 then h
    else
      var before, dim := AddDims(h, it, n - 1), DIM_CODES[n - 1];
      if Addressed(it, dim) then before[dim := HistoryOf(before, dim) + [EntryOn(it, dim)]] else before
  }

  function NewRecord(it: Item): Record {
    Record(it.iv.role, it.iv.person, [], map[])
  }

  function AddItem(p: Record, it: Item): Record {
    Record(p.role, p.person, if it.round in p.rounds then p.rounds else p.rounds + [it.round], AddDims(p.history, it, |DIM_CODES|))
  }

  /** Everyone met so far, in order of first appearance. */
  datatype Table = Table(order: seq<string>, people: map<string, Record>)

  function AddToTable(t: Table, it: Item): Table {
    var key := PersonKey(it.iv);
    if key == "" then t
    else if key in t.people then Table(t.order, t.people[key := AddItem(t.people[key], it)])
    else Table(t.order + [key], t.people[key := AddItem(NewRecord(it), it)])
  }

  function Collect(items: seq<Item>): Table {
    if items == [] then Table([], map[]) else AddToTable(Collect(items[..|items| - 1]), items[|items| - 1])
  }

  // ---------- The second pass ----------

  function InsertEntry(es: seq<Entry>, e: Entry): seq<Entry> {
    if es == [] then [e]
    else if e.round < es[|es| - 1].round then InsertEntry(es[..|es| - 1], e) + [es[|es| - 1]]
    else es + [e]
  }

  function SortEntries(es: seq<Entry>): (r: seq<Entry>)
    ensures es != [] ==> r != []
  {
    if es == [] then []
    else
      var before, e := SortEntries(es[..|es| - 1]), es[|es| - 1];
      if before != [] && e.round < before[|before| - 1].round then InsertEntry(before, e) else before + [e]
  }

  function LastScored(es: seq<Entry>): Option<Entry> {
    if es == [] then None else if es[|es| - 1].score.Some? then Some(es[|es| - 1]) else LastScored(es[..|es| - 1])
  }

  function MaxRound(rounds: seq<int>): Option<int> {
    if rounds == [] then None
    else
      var before, r := MaxRound(rounds[..|rounds| - 1]), rounds[|rounds| - 1];
      if before.None? || before.value < r then Some(r) else before
  }

  /** What is held on one dimension: the latest entry in its own words, and whether its score is carried forward. */
  datatype Standing = Standing(latest: Entry, measured: Option<Entry>, stale: bool, sinceMeasured: Option<int>)

  function StandingOf(es: seq<Entry>, own: seq<int>, newest: Option<int>): Standing
    requires es != []
  {
    var sorted := SortEntries(es);
    var measured := LastScored(sorted);
    Standing(sorted[|sorted| - 1], measured,
             measured.Some? && MaxRound(own).Some? && MaxRound(own).value > measured.value.round,
             if measured.None? then None else if newest.None? then Some(0) else Some(newest.value - measured.value.round))
  }

  /** The people with that role who are named, over all interviews. */
  function NamesIn(items: seq<Item>, role: string): set<string> {
    set it | it in items && it.iv.role == role && role != "" && it.iv.person != "" :: it.iv.person
  }

  function LabelOf(items: seq<Item>, role: string, person: string): string {
    Attribution(role, person, NamesIn(items, role))
  }

  datatype Person = Person(role: string, person: string, attribution: string, rounds: seq<int>, dims: map<string, Standing>)

  datatype Memory = Memory(newestRound: Option<int>, order: seq<string>, people: map<string, Person>)

  function RoundsOf(items: seq<Item>): seq<int> {
    if items == [] then [] else RoundsOf(items[..|items| - 1]) + [items[|items| - 1].round]
  }

  function Dims(p: Record, newest: Option<int>): map<string, Standing> {
    map d | d in p.history && p.history[d] != [] :: StandingOf(p.history[d], p.rounds, newest)
  }

  /** People with no evidence on any dimension are dropped. */
  function WithEvidence(t: Table, order: seq<string>): seq<string> {
    if order == [] then []
    else
      var k := order[|order| - 1];
      if k in t.people && t.people[k].history != map[] then WithEvidence(t, order[..|order| - 1]) + [k]
      else WithEvidence(t, order[..|order| - 1])
  }

  function Remember(items: seq<Item>): Memory {
    var t, newest := Collect(items), MaxRound(RoundsOf(items));
    Memory(newest, WithEvidence(t, t.order),
           map k | k in t.people && t.people[k].history != map[] ::
             var p := t.people[k];
             Person(p.role, p.person, LabelOf(items, p.role, p.person), p.rounds, Dims(p, newest)))
  }

  function Build(rounds: seq<Round>): Memory {
    Remember(Flatten(SortRounds(rounds)))
  }

  // ---------- The projections ----------

  datatype Line = Line(round: int, text: string)

  /** What one person, not the one who asks, last said on the dimension. */
  function LineOf(m: Memory, pk: string, key: string, dim: string): seq<Line> {
    if pk == key || pk !in m.people || dim !in m.people[pk].dims || m.people[pk].dims[dim].latest.text == "" then []
    else [Line(m.people[pk].dims[dim].latest.round, m.people[pk].dims[dim].latest.text)]
  }

  function Lines(m: Memory, order: seq<string>, key: string, dim: string): seq<Line> {
    if order == [] then [] else Lines(m, order[..|order| - 1], key, dim) + LineOf(m, order[|order| - 1], key, dim)
  }

  function InsertLine(ls: seq<Line>, l: Line): seq<Line> {
    if ls == [] then [l]
    else if l.round > ls[|ls| - 1].round then InsertLine(ls[..|ls| - 1], l) + [ls[|ls| - 1]]
    else ls + [l]
  }

  /** Newest first. */
  function SortLines(ls: seq<Line>): seq<Line> {
    if ls == [] then [] else InsertLine(SortLines(ls[..|ls| - 1]), ls[|ls| - 1])
  }

  function Texts(ls: seq<Line>): seq<string> {
    if ls == [] then [] else Texts(ls[..|ls| - 1]) + [ls[|ls| - 1].text]
  }

  function AmbientOn(m: Memory, key: string, dim: string): seq<string> {
    var ls := SortLines(Lines(m, m.order, key, dim));
    Texts(if |ls| < AMBIENT_PER_DIM then ls else ls[..AMBIENT_PER_DIM])
  }

  function AmbientView(m: Memory, key: string, dims: seq<string>): map<string, seq<string>> {
    var want := if dims == [] then DIM_CODES else dims;
    map d | d in want && AmbientOn(m, key, d) != [] :: AmbientOn(m, key, d)
  }

  function SelfView(m: Memory, key: string): Option<Person> {
    if key in m.people then Some(m.people[key]) else None
  }

  // ---------- One person's interviews, and everybody else's ----------

  /** The interviews of one person, or those of everybody else. */
  function PartOf(ivs: seq<Interview>, key: string, own: bool): seq<Interview> {
    if ivs == [] then []
    else if (PersonKey(ivs[|ivs| - 1]) == key) == own then PartOf(ivs[..|ivs| - 1], key, own) + [ivs[|ivs| - 1]]
    else PartOf(ivs[..|ivs| - 1], key, own)
  }

  function PartOfRound(r: Round, key: string, own: bool): Round {
    Round(r.number, r.id, PartOf(r.interviews, key, own))
  }

  function PartOfRounds(rounds: seq<Round>, key: string, own: bool): (r: seq<Round>)
    ensures |r| == |rounds|
  {
    if rounds == [] then [] else PartOfRounds(rounds[..|rounds| - 1], key, own) + [PartOfRound(rounds[|rounds| - 1], key, own)]
  }

  function PartOfItems(items: seq<Item>, key: string, own: bool): seq<Item> {
    if items == [] then []
    else if (PersonKey(items[|items| - 1].iv) == key) == own then PartOfItems(items[..|items| - 1], key, own) + [items[|items| - 1]]
    else PartOfItems(items[..|items| - 1], key, own)
  }

  /** The engagement without one person's interviews. */
  function WithoutRounds(rounds: seq<Round>, key: string): seq<Round> {
    PartOfRounds(rounds, key, false)
  }

  /** The engagement with one person's interviews only. */
  function OnlyRounds(rounds: seq<Round>, key: string): seq<Round> {
    PartOfRounds(rounds, key, true)
  }

  function Without(items: seq<Item>, key: string): seq<Item> {
    PartOfItems(items, key, false)
  }

  function Only(items: seq<Item>, key: string): seq<Item> {
    PartOfItems(items, key, true)
  }

  function WithoutKey(order: seq<string>, key: string): seq<string> {
    if order == [] then []
    else if order[|order| - 1] == key then WithoutKey(order[..|order| - 1], key)
    else WithoutKey(order[..|order| - 1], key) + [order[|order| - 1]]
  }

  lemma PartOfRoundsAppend(rounds: seq<Round>, r: Round, key: string, own: bool)
    ensures PartOfRounds(rounds + [r], key, own) == PartOfRounds(rounds, key, own) + [PartOfRound(r, key, own)]
  {
    assert (rounds + [r])[..|rounds|] == rounds;
  }

  lemma {:induction false} InsertCommutes(rounds: seq<Round>, r: Round, key: string, own: bool)
    ensures PartOfRounds(Insert(rounds, r), key, own) == Insert(PartOfRounds(rounds, key, own), PartOfRound(r, key, own))
  {
    if rounds == [] {
      PartOfRoundsAppend([], r, key, own);
    } else {
      var init, last := rounds[..|rounds| - 1], rounds[|rounds| - 1];
      var out := PartOfRounds(rounds, key, own);
      assert out[|out| - 1] == PartOfRound(last, key, own) && out[..|out| - 1] == PartOfRounds(init, key, own);
      if Before(r, last) {
        InsertCommutes(init, r, key, own);
        PartOfRoundsAppend(Insert(init, r), last, key, own);
      } else {
        PartOfRoundsAppend(rounds, r, key, own);
      }
    }
  }

  lemma {:induction false} SortCommutes(rounds: seq<Round>, key: string, own: bool)
    ensures PartOfRounds(SortRounds(rounds), key, own) == SortRounds(PartOfRounds(rounds, key, own))
  {
    if rounds != [] {
      var init, last := rounds[..|rounds| - 1], rounds[|rounds| - 1];
      SortCommutes(init, key, own);
      InsertCommutes(SortRounds(init), last, key, own);
      var out := PartOfRounds(rounds, key, own);
      assert out[|out| - 1] == PartOfRound(last, key, own) && out[..|out| - 1] == PartOfRounds(init, key, own);
    }
  }

  lemma Regroup<T>(a: seq<T>, b: seq<T>, x: T)
    ensures (a + b) + [x] == a + (b + [x])
  {
  }

  lemma {:induction false} PartAppend(a: seq<Item>, b: seq<Item>, key: string, own: bool)
    ensures PartOfItems(a + b, key, own) == PartOfItems(a, key, own) + PartOfItems(b, key, own)
    decreases |b|
  {
    if b == [] {
      assert a + b == a;
    } else {
      var init, last := b[..|b| - 1], b[|b| - 1];
      PartAppend(a, init, key, own);
      assert (a + b)[..|a + b| - 1] == a + init && (a + b)[|a + b| - 1] == last;
      Regroup(PartOfItems(a, key, own), PartOfItems(init, key, own), last);
    }
  }

  lemma {:induction false} ItemsCommute(r: Round, number: int, ivs: seq<Interview>, key: string, own: bool)
    ensures PartOfItems(ItemsIn(r, number, ivs), key, own) == ItemsIn(PartOfRound(r, key, own), number, PartOf(ivs, key, own))
  {
    if ivs != [] {
      var init, iv := ivs[..|ivs| - 1], ivs[|ivs| - 1];
      ItemsCommute(r, number, init, key, own);
      var it := Item(number, r.id, iv);
      var before := ItemsIn(r, number, init);
      assert (before + [it])[..|before|] == before;
      var kept := PartOf(init, key, own);
      assert (kept + [iv])[..|kept|] == kept;
    }
  }

  lemma {:induction false} FlattenCommutes(rounds: seq<Round>, key: string, own: bool)
    ensures PartOfItems(Flatten(rounds), key, own) == Flatten(PartOfRounds(rounds, key, own))
  {
    if rounds != [] {
      var init, r := rounds[..|rounds| - 1], rounds[|rounds| - 1];
      var number := if r.number.Some? then r.number.value else |rounds|;
      FlattenCommutes(init, key, own);
      ItemsCommute(r, number, r.interviews, key, own);
      PartAppend(Flatten(init), ItemsIn(r, number, r.interviews), key, own);
      var out := PartOfRounds(rounds, key, own);
      assert out[|out| - 1] == PartOfRound(r, key, own) && out[..|out| - 1] == PartOfRounds(init, key, own);
    }
  }

  /** What is remembered of a part of the engagement is what its part of the interviews gives. */
  lemma BuildOfPart(rounds: seq<Round>, key: string, own: bool)
    ensures Build(PartOfRounds(rounds, key, own)) == Remember(PartOfItems(Flatten(SortRounds(rounds)), key, own))
  {
    SortCommutes(rounds, key, own);
    FlattenCommutes(SortRounds(rounds), key, own);
  }

  /** The same table, but for one person. */
  ghost predicate SameBut(t: Table, u: Table, key: string) {
    && u.order == WithoutKey(t.order, key)
    && (forall k | k != key :: k in t.people <==> k in u.people)
    && (forall k | k != key && k in t.people :: t.people[k] == u.people[k])
  }

  lemma AddSame(t: Table, u: Table, it: Item, key: string)
    requires SameBut(t, u, key)
    ensures SameBut(AddToTable(t, it), if PersonKey(it.iv) == key then u else AddToTable(u, it), key)
  {
    var k := PersonKey(it.iv);
    assert (t.order + [k])[..|t.order|] == t.order;
  }

  lemma {:induction false} CollectCommutes(items: seq<Item>, key: string)
    ensures SameBut(Collect(items), Collect(Without(items, key)), key)
  {
    if items != [] {
      var init, it := items[..|items| - 1], items[|items| - 1];
      CollectCommutes(init, key);
      AddSame(Collect(init), Collect(Without(init, key)), it, key);
      var kept := Without(init, key);
      assert (kept + [it])[..|kept|] == kept;
    }
  }

  lemma {:induction false} EvidenceCommutes(t: Table, u: Table, order: seq<string>, key: string)
    requires SameBut(t, u, key)
    ensures WithEvidence(u, WithoutKey(order, key)) == WithoutKey(WithEvidence(t, order), key)
  {
    if order != [] {
      var init, k := order[..|order| - 1], order[|order| - 1];
      EvidenceCommutes(t, u, init, key);
      var rest := WithoutKey(init, key);
      assert (rest + [k])[..|rest|] == rest;
      var kept := WithEvidence(t, init);
      assert (kept + [k])[..|kept|] == kept;
    }
  }

  /** What is ambient for `key` in the two memories is the same, person by person. */
  ghost predicate SameAmbient(m: Memory, n: Memory, key: string) {
    && n.order == WithoutKey(m.order, key)
    && forall pk, dim :: LineOf(m, pk, key, dim) == LineOf(n, pk, key, dim)
  }

  lemma LatestIgnoresNewest(p: Record, dim: string, a: Option<int>, b: Option<int>)
    requires dim in Dims(p, a)
    ensures dim in Dims(p, b) && Dims(p, a)[dim].latest == Dims(p, b)[dim].latest
  {
  }

  lemma RememberCommutes(items: seq<Item>, key: string)
    ensures SameAmbient(Remember(items), Remember(Without(items, key)), key)
  {
    var t, u := Collect(items), Collect(Without(items, key));
    var m, n := Remember(items), Remember(Without(items, key));
    CollectCommutes(items, key);
    EvidenceCommutes(t, u, t.order, key);
    forall pk, dim
      ensures LineOf(m, pk, key, dim) == LineOf(n, pk, key, dim)
    {
      if pk != key && pk in t.people {
        assert t.people[pk] == u.people[pk];
        assert pk in m.people <==> pk in n.people;
      }
    }
  }

  lemma {:induction false} LinesCommute(m: Memory, n: Memory, order: seq<string>, key: string, dim: string)
    requires forall pk :: LineOf(m, pk, key, dim) == LineOf(n, pk, key, dim)
    ensures Lines(m, order, key, dim) == Lines(n, WithoutKey(order, key), key, dim)
  {
    if order != [] {
      var init, pk := order[..|order| - 1], order[|order| - 1];
      LinesCommute(m, n, init, key, dim);
      assert pk == key ==> Lines(m, init, key, dim) + LineOf(m, pk, key, dim) == Lines(m, init, key, dim);
      var rest := WithoutKey(init, key);
      assert (rest + [pk])[..|rest|] == rest;
    }
  }

  /** A person's own interviews can be taken out of the engagement without changing what is ambient for them. */
  lemma OwnInterviewsDoNotShow(rounds: seq<Round>, key: string, dims: seq<string>)
    ensures AmbientView(Build(rounds), key, dims) == AmbientView(Build(WithoutRounds(rounds, key)), key, dims)
  {
    BuildOfPart(rounds, key, false);
    RememberCommutes(Flatten(SortRounds(rounds)), key);
    var m, n := Build(rounds), Build(WithoutRounds(rounds, key));
    forall dim
      ensures AmbientOn(m, key, dim) == AmbientOn(n, key, dim)
    {
      LinesCommute(m, n, m.order, key, dim);
    }
  }

  /**
   Never one's own. Two engagements with the same rounds, which differ only in the interviews of one
   person, show that person the same ambient material.
   */
  lemma AmbientIgnoresOwn(a: seq<Round>, b: seq<Round>, key: string, dims: seq<string>)
    requires WithoutRounds(a, key) == WithoutRounds(b, key)
    ensures AmbientView(Build(a), key, dims) == AmbientView(Build(b), key, dims)
  {
    OwnInterviewsDoNotShow(a, key, dims);
    OwnInterviewsDoNotShow(b, key, dims);
  }

  // ---------- Only one's own ----------

  /** The same record of one person, or none. */
  ghost predicate SameRecord(t: Table, u: Table, key: string) {
    (key in t.people <==> key in u.people) && (key in t.people ==> t.people[key] == u.people[key])
  }

  lemma AddSameRecord(t: Table, u: Table, it: Item, key: string)
    requires SameRecord(t, u, key)
    ensures SameRecord(AddToTable(t, it), if PersonKey(it.iv) == key then AddToTable(u, it) else u, key)
  {
  }

  lemma {:induction false} RecordIsOwn(items: seq<Item>, key: string)
    ensures SameRecord(Collect(items), Collect(Only(items, key)), key)
  {
    if items != [] {
      var init, it := items[..|items| - 1], items[|items| - 1];
      RecordIsOwn(init, key);
      AddSameRecord(Collect(init), Collect(Only(init, key)), it, key);
      var kept := Only(init, key);
      assert (kept + [it])[..|kept|] == kept;
    }
  }

  /** What one person is shown of themselves in the two memories is the same. */
  ghost predicate SameSelf(m: Memory, n: Memory, key: string) {
    var mine, own := SelfView(m, key), SelfView(n, key);
    && (mine.Some? <==> own.Some?)
    && (mine.Some? ==> mine.value.rounds == own.value.rounds && mine.value.dims.Keys == own.value.dims.Keys)
    && (mine.Some? ==> forall dim | dim in mine.value.dims :: SameStanding(mine.value.dims[dim], own.value.dims[dim]))
  }

  /** All but how many rounds ago the score was measured, which is told from the newest round of all. */
  ghost predicate SameStanding(a: Standing, b: Standing) {
    a.latest == b.latest && a.measured == b.measured && a.stale == b.stale
  }

  lemma OwnItemsDecide(items: seq<Item>, key: string)
    ensures SameSelf(Remember(items), Remember(Only(items, key)), key)
  {
    RecordIsOwn(items, key);
  }

  /**
   Only one's own. What an engagement shows a person of themselves, their own words, scores and staleness, is
   what it would with nobody else's interviews in it.
   */
  lemma SelfViewIsOwn(rounds: seq<Round>, key: string)
    ensures SameSelf(Build(rounds), Build(OnlyRounds(rounds, key)), key)
  {
    BuildOfPart(rounds, key, true);
    OwnItemsDecide(Flatten(SortRounds(rounds)), key);
  }

  // ---------- The newest ----------

  lemma {:induction false} InsertLineKeeps(ls: seq<Line>, l: Line)
    ensures multiset(InsertLine(ls, l)) == multiset(ls) + multiset{l}
  {
    if ls != [] {
      assert ls == ls[..|ls| - 1] + [ls[|ls| - 1]];
      InsertLineKeeps(ls[..|ls| - 1], l);
    }
  }

  predicate Descending(ls: seq<Line>) {
    forall i, j {:trigger ls[i], ls[j]} | 0 <= i < j < |ls| :: ls[i].round >= ls[j].round
  }

  lemma DescendingAppend(ls: seq<Line>, l: Line)
    requires Descending(ls) && forall i | 0 <= i < |ls| :: ls[i].round >= l.round
    ensures Descending(ls + [l])
  {
  }

  lemma {:induction false} InsertLineDescends(ls: seq<Line>, l: Line)
    requires Descending(ls)
    ensures Descending(InsertLine(ls, l))
  {
    if ls != [] {
      var init, last := ls[..|ls| - 1], ls[|ls| - 1];
      if l.round > last.round {
        InsertLineDescends(init, l);
        InsertLineKeeps(init, l);
        var put := InsertLine(init, l);
        forall i | 0 <= i < |put| ensures put[i].round >= last.round {
          assert put[i] in multiset(put);
          if put[i] != l {
            assert put[i] in init;
            var k :| 0 <= k < |init| && init[k] == put[i];
            assert ls[k] == init[k];
          }
        }
        DescendingAppend(put, last);
      } else {
        forall i | 0 <= i < |ls| ensures ls[i].round >= l.round {
          if i < |ls| - 1 { assert ls[i].round >= ls[|ls| - 1].round; }
        }
        DescendingAppend(ls, l);
      }
    }
  }

  lemma {:induction false} SortLinesIsSort(ls: seq<Line>)
    ensures multiset(SortLines(ls)) == multiset(ls) && Descending(SortLines(ls))
  {
    if ls != [] {
      var init, last := ls[..|ls| - 1], ls[|ls| - 1];
      assert ls == init + [last];
      SortLinesIsSort(init);
      InsertLineKeeps(SortLines(init), last);
      InsertLineDescends(SortLines(init), last);
    }
  }

  lemma {:induction false} TextsAre(ls: seq<Line>)
    ensures |Texts(ls)| == |ls| && forall i | 0 <= i < |ls| :: Texts(ls)[i] == ls[i].text
  {
    if ls != [] { TextsAre(ls[..|ls| - 1]); }
  }

  lemma {:induction false} LineIsAmong(m: Memory, order: seq<string>, key: string, dim: string, pk: string)
    requires pk in order
    ensures forall l | l in LineOf(m, pk, key, dim) :: l in Lines(m, order, key, dim)
  {
    var init, last := order[..|order| - 1], order[|order| - 1];
    assert order == init + [last];
    if pk != last { LineIsAmong(m, init, key, dim, pk); }
  }

  /**
   The ambient view is the newest that others said: what somebody else last said on the dimension is
   shown, unless two statements at least as new are.
   */
  lemma NewestIsShown(m: Memory, key: string, dim: string, pk: string, l: Line)
    requires pk in m.order && LineOf(m, pk, key, dim) == [l]
    ensures var ls := SortLines(Lines(m, m.order, key, dim));
            || l.text in AmbientOn(m, key, dim)
            || (|ls| > 2 && ls[0].round >= l.round && ls[1].round >= l.round && AmbientOn(m, key, dim) == [ls[0].text, ls[1].text])
  {
    var lines := Lines(m, m.order, key, dim);
    SortLinesIsSort(lines);
    LineIsAmong(m, m.order, key, dim, pk);
    assert l in LineOf(m, pk, key, dim);
    InSorted(lines, SortLines(lines), l);
    FirstTwo(SortLines(lines), l);
  }

  lemma InSorted(lines: seq<Line>, ls: seq<Line>, l: Line)
    requires multiset(ls) == multiset(lines) && l in lines
    ensures l in ls
  {
    assert l in multiset(lines);
    assert l in multiset(ls);
  }

  lemma FirstTwo(ls: seq<Line>, l: Line)
    requires Descending(ls) && l in ls
    ensures var texts := Texts(if |ls| < AMBIENT_PER_DIM then ls else ls[..AMBIENT_PER_DIM]);
            l.text in texts || (|ls| > 2 && ls[0].round >= l.round && ls[1].round >= l.round && texts == [ls[0].text, ls[1].text])
  {
    var i :| 0 <= i < |ls| && ls[i] == l;
    var shown := if |ls| < AMBIENT_PER_DIM then ls else ls[..AMBIENT_PER_DIM];
    TextsAre(shown);
    if i < |shown| {
      assert Texts(shown)[i] == l.text;
    }
  }

  lemma {:induction false} InsertEntryLast(es: seq<Entry>, e: Entry)
    requires es != [] && e.round < es[|es| - 1].round
    ensures InsertEntry(es, e)[|InsertEntry(es, e)| - 1] == es[|es| - 1]
  {
  }

  /** The latest statement is that of the newest round, and of two in one round the later one. */
  lemma {:induction false} LatestIsNewest(es: seq<Entry>, e: Entry)
    ensures var sorted := SortEntries(es + [e]);
            sorted != [] &&
            sorted[|sorted| - 1] == (if es == [] || SortEntries(es)[|SortEntries(es)| - 1].round <= e.round then e
                                     else SortEntries(es)[|SortEntries(es)| - 1])
  {
    assert (es + [e])[..|es|] == es;
    var before := SortEntries(es);
    if before != [] && e.round < before[|before| - 1].round { InsertEntryLast(before, e); }
  }

  /** Of two entries, the one that stands: the newer round's, and in one round the later one. */
  function Newer(before: Option<Entry>, e: Entry): Entry {
    if before.None? || before.value.round <= e.round then e else before.value
  }

  ghost predicate InOrder(es: seq<Entry>) {
    forall i, j {:trigger es[i], es[j]} | 0 <= i < j < |es| :: es[i].round <= es[j].round
  }

  lemma SnocInOrder(es: seq<Entry>, l: Entry)
    requires InOrder(es) && forall x | x in es :: x.round <= l.round
    ensures InOrder(es + [l])
  {
  }

  lemma InitInOrder(es: seq<Entry>)
    requires es != [] && InOrder(es)
    ensures InOrder(es[..|es| - 1]) && forall x | x in es[..|es| - 1] :: x.round <= es[|es| - 1].round
  {
  }

  lemma {:induction false} InsertKeepsOrder(es: seq<Entry>, e: Entry)
    requires InOrder(es)
    ensures InOrder(InsertEntry(es, e))
    ensures forall x | x in InsertEntry(es, e) :: x == e || x in es
  {
    if es != [] {
      var init, l := es[..|es| - 1], es[|es| - 1];
      assert es == init + [l];
      InitInOrder(es);
      if e.round < l.round {
        InsertKeepsOrder(init, e);
        SnocInOrder(InsertEntry(init, e), l);
      } else {
        SnocInOrder(es, e);
      }
    }
  }

  lemma {:induction false} InsertKeepsScored(es: seq<Entry>, e: Entry)
    requires InOrder(es)
    ensures LastScored(InsertEntry(es, e)) == if e.score.Some? then Some(Newer(LastScored(es), e)) else LastScored(es)
  {
    if es != [] && e.round < es[|es| - 1].round {
      var put, l := InsertEntry(es[..|es| - 1], e), es[|es| - 1];
      InsertKeepsScored(es[..|es| - 1], e);
      assert (put + [l])[..|put|] == put;
    } else {
      assert (es + [e])[..|es|] == es;
      ScoredIsIn(es);
    }
  }

  lemma {:induction false} ScoredIsIn(es: seq<Entry>)
    ensures LastScored(es).Some? ==> exists i :: 0 <= i < |es| && es[i] == LastScored(es).value
  {
    if es != [] && es[|es| - 1].score.None? { ScoredIsIn(es[..|es| - 1]); }
  }

  lemma {:induction false} SortedIsInOrder(es: seq<Entry>)
    ensures InOrder(SortEntries(es))
  {
    if es != [] {
      SortedIsInOrder(es[..|es| - 1]);
      InsertKeepsOrder(SortEntries(es[..|es| - 1]), es[|es| - 1]);
    }
  }

  lemma {:induction false} MaxRoundIsMax(rounds: seq<int>)
    ensures MaxRound(rounds).Some? <==> rounds != []
    ensures forall i | 0 <= i < |rounds| :: rounds[i] <= MaxRound(rounds).value
    ensures rounds != [] ==> exists i :: 0 <= i < |rounds| && rounds[i] == MaxRound(rounds).value
  {
    if rounds != [] {
      var init, l := rounds[..|rounds| - 1], |rounds| - 1;
      MaxRoundIsMax(init);
      assert forall i | 0 <= i < l :: init[i] == rounds[i];
      if MaxRound(rounds).value == rounds[l] {
        assert rounds[l] == MaxRound(rounds).value;
      } else {
        var i :| 0 <= i < l && init[i] == MaxRound(init).value;
        assert rounds[i] == MaxRound(rounds).value;
      }
    }
  }

  lemma AppendIsInsert(es: seq<Entry>, e: Entry)
    requires es == [] || es[|es| - 1].round <= e.round
    ensures InsertEntry(es, e) == es + [e]
  {
  }

  /**
   What is held on a dimension, entry by entry: the statement is that of the newest round, the measured score that of the
   newest round with a score, and of two in one round the later; the score is carried forward exactly if the person was
   heard in a later round than the one that measured it.
   */
  lemma {:induction false} StandingFollows(es: seq<Entry>, e: Entry, own: seq<int>, newest: Option<int>)
    ensures var s := StandingOf(es + [e], own, newest);
            && s.latest == Newer(if es == [] then None else Some(StandingOf(es, own, newest).latest), e)
            && var m := if es == [] then None else StandingOf(es, own, newest).measured;
               && s.measured == (if e.score.Some? then Some(Newer(m, e)) else m)
               && (s.stale <==> s.measured.Some? && exists i :: 0 <= i < |own| && own[i] > s.measured.value.round)
               && (s.sinceMeasured.Some? <==> s.measured.Some?)
               && (s.measured.Some? ==> s.sinceMeasured.value == if newest.Some? then newest.value - s.measured.value.round else 0)
  {
    LatestIsNewest(es, e);
    assert (es + [e])[..|es|] == es;
    var before := SortEntries(es);
    SortedIsInOrder(es);
    InsertKeepsScored(before, e);
    if before == [] || before[|before| - 1].round <= e.round { AppendIsInsert(before, e); }
    assert SortEntries(es + [e]) == InsertEntry(before, e);
    MaxRoundIsMax(own);
  }
}
