/**
 What is remembered, from the rounds themselves: the interviews in round order, each person's evidence on each
 dimension as it was given, and nobody without any.
 */
module MemoryMeaning {
  import opened Attributions
  import opened Memory
  import opened Options

  // ---------- The rounds in order ----------

  /** The rounds of one number, or those without, as they come. */
  function Numbered(rounds: seq<Round>, number: Option<int>): seq<Round> {
    if rounds == [] then []
    else Numbered(rounds[..|rounds| - 1], number) + if rounds[|rounds| - 1].number == number then [rounds[|rounds| - 1]] else []
  }

  /** No round comes before one it belongs after: a smaller number first, and none after any. */
  ghost predicate InRoundOrder(rounds: seq<Round>) {
    forall i, j {:trigger rounds[i], rounds[j]} | 0 <= i < j < |rounds| ::
      rounds[j].number.Some? ==> rounds[i].number.Some? && rounds[i].number.value <= rounds[j].number.value
  }

  lemma NumberedGrows(rounds: seq<Round>, r: Round, number: Option<int>)
    ensures Numbered(rounds + [r], number) == Numbered(rounds, number) + if r.number == number then [r] else []
  {
    assert (rounds + [r])[..|rounds|] == rounds;
  }

  lemma {:induction false} InsertNumbers(rounds: seq<Round>, r: Round, number: Option<int>)
    ensures Numbered(Insert(rounds, r), number) == Numbered(rounds, number) + if r.number == number then [r] else []
  {
    if rounds == [] {
      NumberedGrows([], r, number);
    } else if Before(r, rounds[|rounds| - 1]) {
      InsertNumbers(rounds[..|rounds| - 1], r, number);
      NumberedGrows(Insert(rounds[..|rounds| - 1], r), rounds[|rounds| - 1], number);
    } else {
      NumberedGrows(rounds, r, number);
    }
  }

  lemma {:induction false} InsertMembers(rounds: seq<Round>, r: Round)
    ensures multiset(Insert(rounds, r)) == multiset(rounds) + multiset{r}
  {
    if rounds != [] {
      assert rounds == rounds[..|rounds| - 1] + [rounds[|rounds| - 1]];
      InsertMembers(rounds[..|rounds| - 1], r);
    }
  }

  predicate NotAfter(r: Round, last: Round) {
    last.number.Some? ==> r.number.Some? && r.number.value <= last.number.value
  }

  lemma InOrderGrows(rounds: seq<Round>, last: Round)
    requires InRoundOrder(rounds) && forall r | r in rounds :: NotAfter(r, last)
    ensures InRoundOrder(rounds + [last])
  {
    var n := rounds + [last];
    forall i, j {:trigger n[i], n[j]} | 0 <= i < j < |n|
      ensures n[j].number.Some? ==> n[i].number.Some? && n[i].number.value <= n[j].number.value
    {
      assert n[i] == rounds[i] && rounds[i] in rounds;
      if j < |rounds| { assert n[j] == rounds[j]; }
    }
  }

  lemma {:induction false} InsertOrders(rounds: seq<Round>, r: Round)
    requires InRoundOrder(rounds)
    ensures InRoundOrder(Insert(rounds, r))
  {
    if rounds != [] {
      var init, last := rounds[..|rounds| - 1], rounds[|rounds| - 1];
      forall x | x in init ensures NotAfter(x, last) {
        var i :| 0 <= i < |init| && init[i] == x;
        assert rounds[i] == x && rounds[|rounds| - 1] == last;
      }
      assert rounds == init + [last];
      if Before(r, last) {
        InsertOrders(init, r);
        InsertMembers(init, r);
        forall x | x in Insert(init, r) ensures NotAfter(x, last) {
          assert x in multiset(Insert(init, r));
          assert x == r || x in init;
        }
        InOrderGrows(Insert(init, r), last);
      } else {
        assert forall x | x in rounds :: NotAfter(x, r);
        InOrderGrows(rounds, r);
      }
    }
  }

  /** The rounds are put in the order of their numbers, those without one last, and of one number as they came. */
  lemma {:induction false} RoundsAreSorted(rounds: seq<Round>, number: Option<int>)
    ensures InRoundOrder(SortRounds(rounds)) && multiset(SortRounds(rounds)) == multiset(rounds)
    ensures Numbered(SortRounds(rounds), number) == Numbered(rounds, number)
  {
    if rounds != [] {
      var init, r := rounds[..|rounds| - 1], rounds[|rounds| - 1];
      assert rounds == init + [r];
      RoundsAreSorted(init, number);
      InsertOrders(SortRounds(init), r);
      InsertMembers(SortRounds(init), r);
      InsertNumbers(SortRounds(init), r, number);
    }
  }

  // ---------- The interviews of the rounds ----------

  /** How many interviews the first `k` rounds have. */
  function Offset(rounds: seq<Round>, k: nat): nat
    requires k <= |rounds|
  {
    if k == 0 then 0 else Offset(rounds, k - 1) + |rounds[k - 1].interviews|
  }

  lemma {:induction false} ItemsAreInterviews(r: Round, number: int, ivs: seq<Interview>)
    ensures |ItemsIn(r, number, ivs)| == |ivs|
    ensures forall j | 0 <= j < |ivs| :: ItemsIn(r, number, ivs)[j] == Item(number, r.id, ivs[j])
  {
    if ivs != [] { ItemsAreInterviews(r, number, ivs[..|ivs| - 1]); }
  }

  lemma {:induction false} OffsetOfPrefix(rounds: seq<Round>, k: nat, n: nat)
    requires k <= n <= |rounds|
    ensures Offset(rounds[..n], k) == Offset(rounds, k)
    ensures Offset(rounds, k) <= Offset(rounds, n)
    decreases n, k
  {
    if k > 0 { OffsetOfPrefix(rounds, k - 1, n); }
    if k < n { OffsetOfPrefix(rounds, k, n - 1); }
  }

  /**
   The interviews are taken round by round, each in its place, under the number of its round, or under the round's place
   in order if it has none; none is left out and none comes twice.
   */
  lemma {:induction false} ItemsInTheirPlace(rounds: seq<Round>, k: nat, j: nat)
    requires k < |rounds| && j < |rounds[k].interviews|
    ensures |Flatten(rounds)| == Offset(rounds, |rounds|) && Offset(rounds, k) + j < |Flatten(rounds)|
    ensures var r := rounds[k];
            Flatten(rounds)[Offset(rounds, k) + j] == Item(if r.number.Some? then r.number.value else k + 1, r.id, r.interviews[j])
  {
    var n := |rounds| - 1;
    var r := rounds[n];
    ItemsAreInterviews(r, if r.number.Some? then r.number.value else |rounds|, r.interviews);
    FlattenCounts(rounds[..n]);
    OffsetOfPrefix(rounds, n, n);
    OffsetOfPrefix(rounds, k, n);
    if k < n { ItemsInTheirPlace(rounds[..n], k, j); }
  }

  lemma {:induction false} FlattenCounts(rounds: seq<Round>)
    ensures |Flatten(rounds)| == Offset(rounds, |rounds|)
  {
    if rounds != [] {
      var n := |rounds| - 1;
      var r := rounds[n];
      ItemsAreInterviews(r, if r.number.Some? then r.number.value else |rounds|, r.interviews);
      FlattenCounts(rounds[..n]);
      OffsetOfPrefix(rounds, n, n);
    }
  }

  // ---------- Who is who ----------

  /** Within a role people are told apart by name, and somebody without a name is nobody named. */
  lemma KeysTellPeopleApart(a: Interview, b: Interview)
    requires a.role == b.role
    ensures PersonKey(a) == PersonKey(b) <==> a.person == b.person
    ensures PersonKey(a) == "" <==> a.role == "" && a.person == ""
  {
    if a.person != "" && b.person != "" && PersonKey(a) == PersonKey(b) {
      var left := a.role + "||";
      assert a.person == (left + a.person)[|left|..] && b.person == (left + b.person)[|left|..];
    }
  }

  // ---------- What each person said ----------

  predicate IsDimension(dim: string) {
    dim in DIM_CODES
  }

  /** What an interview has on the dimension: a score above nothing, the share covered if told, the first thing said. */
  ghost predicate EvidenceIs(it: Item, dim: string, e: Entry) {
    && e.round == it.round && e.roundId == it.roundId
    && e.score == (if dim in it.iv.scores && it.iv.scores[dim] > 0.0 then Some(it.iv.scores[dim]) else None)
    && e.coverage == (if dim in it.iv.coverage then Some(it.iv.coverage[dim]) else None)
    && (if forall i :: !SaidOn(it.iv.findings, i, dim) then e.text == ""
        else exists i :: SaidOn(it.iv.findings, i, dim) && e.text == it.iv.findings[i].text && forall j | j < i :: !SaidOn(it.iv.findings, j, dim))
  }

  lemma EvidenceExactly(it: Item, dim: string)
    ensures EvidenceIs(it, dim, EntryOn(it, dim))
    ensures Addressed(it, dim) <==> EntryOn(it, dim).score.Some? || exists i :: SaidOn(it.iv.findings, i, dim)
  {
    FirstIsKept(it.iv.findings, dim);
  }

  /** The evidence of one person on one dimension, interview by interview. */
  function EvidenceOf(items: seq<Item>, key: string, dim: string): seq<Entry> {
    if items == [] then []
    else
      var it := items[|items| - 1];
      EvidenceOf(items[..|items| - 1], key, dim) +
        if PersonKey(it.iv) == key && Addressed(it, dim) then [EntryOn(it, dim)] else []
  }

  /** The rounds in which the person was heard, each once, in order. */
  function RoundsWith(items: seq<Item>, key: string): seq<int> {
    if items == [] then []
    else
      var before, it := RoundsWith(items[..|items| - 1], key), items[|items| - 1];
      if PersonKey(it.iv) == key && it.round !in before then before + [it.round] else before
  }

  /** The first interview of the person. */
  ghost predicate FirstOf(items: seq<Item>, key: string, i: int) {
    0 <= i < |items| && PersonKey(items[i].iv) == key && forall j | 0 <= j < i :: PersonKey(items[j].iv) != key
  }

  lemma DimensionsAreDistinct(n: nat, m: nat)
    requires n < m < |DIM_CODES|
    ensures DIM_CODES[n] != DIM_CODES[m]
  {
    assert DIM_CODES[n][1] != DIM_CODES[m][1];
  }

  /** The first `n` dimensions are added to, and no other. */
  lemma {:induction false} DimsAdded(h: map<string, seq<Entry>>, it: Item, n: nat, dim: string)
    requires n <= |DIM_CODES|
    ensures HistoryOf(AddDims(h, it, n), dim) ==
            HistoryOf(h, dim) + if (exists m :: 0 <= m < n && DIM_CODES[m] == dim) && Addressed(it, dim) then [EntryOn(it, dim)] else []
    ensures dim in AddDims(h, it, n) <==> dim in h || ((exists m :: 0 <= m < n && DIM_CODES[m] == dim) && Addressed(it, dim))
  {
    if n > 0 {
      DimsAdded(h, it, n - 1, dim);
      if DIM_CODES[n - 1] == dim {
        forall m | 0 <= m < n - 1 ensures DIM_CODES[m] != dim { DimensionsAreDistinct(m, n - 1); }
      } else if m :| 0 <= m < n && DIM_CODES[m] == dim {
        assert m < n - 1;
      }
    }
  }

  /** The record is the person's: its evidence, rounds, role and name, from the items. */
  ghost predicate RecordOf(items: seq<Item>, key: string, p: Record) {
    && p.rounds == RoundsWith(items, key)
    && (forall dim :: HistoryOf(p.history, dim) == if IsDimension(dim) then EvidenceOf(items, key, dim) else [])
    && (forall dim :: dim in p.history ==> p.history[dim] != [])
    && (forall i | FirstOf(items, key, i) :: p.role == items[i].iv.role && p.person == items[i].iv.person)
  }

  lemma ItemAdded(items: seq<Item>, it: Item, key: string, p: Record)
    requires PersonKey(it.iv) == key && RecordOf(items, key, p)
    requires (exists i :: FirstOf(items, key, i)) || (p.role == it.iv.role && p.person == it.iv.person)
    ensures RecordOf(items + [it], key, AddItem(p, it))
  {
    var all, n := items + [it], AddItem(p, it);
    assert all[..|items|] == items;
    forall dim ensures HistoryOf(n.history, dim) == (if IsDimension(dim) then EvidenceOf(all, key, dim) else []) {
      DimsAdded(p.history, it, |DIM_CODES|, dim);
      if IsDimension(dim) { var m :| 0 <= m < |DIM_CODES| && DIM_CODES[m] == dim; }
    }
    forall dim | dim in n.history ensures n.history[dim] != [] {
      DimsAdded(p.history, it, |DIM_CODES|, dim);
    }
    FirstGrows(items, it, key);
  }

  lemma FirstGrows(items: seq<Item>, it: Item, key: string)
    ensures forall i :: FirstOf(items + [it], key, i) <==>
              if i < |items| then FirstOf(items, key, i)
              else i == |items| && PersonKey(it.iv) == key && forall j | 0 <= j < |items| :: PersonKey(items[j].iv) != key
    ensures (exists i :: FirstOf(items, key, i)) ==> forall i | FirstOf(items + [it], key, i) :: FirstOf(items, key, i)
  {
    var all := items + [it];
    assert forall j | 0 <= j < |items| :: all[j] == items[j];
  }

  /** Somebody of the key was interviewed. */
  ghost predicate Met(items: seq<Item>, key: string) {
    exists i :: FirstOf(items, key, i)
  }

  lemma {:induction false} MetIsSomewhere(items: seq<Item>, key: string)
    ensures Met(items, key) <==> exists i :: 0 <= i < |items| && PersonKey(items[i].iv) == key
  {
    if items != [] {
      var init, n := items[..|items| - 1], |items| - 1;
      assert items == init + [items[n]];
      MetIsSomewhere(init, key);
      FirstGrows(init, items[n], key);
      assert forall j | 0 <= j < n :: init[j] == items[j];
      if i :| 0 <= i < |items| && PersonKey(items[i].iv) == key {
        if exists j :: 0 <= j < |init| && PersonKey(init[j].iv) == key {
          var f :| FirstOf(init, key, f);
          assert FirstOf(items, key, f);
        } else {
          assert FirstOf(items, key, n);
        }
      }
    }
  }

  /** No entry of the person's where the person was not met. */
  lemma {:induction false} NothingOfStrangers(items: seq<Item>, key: string, dim: string)
    requires forall i | 0 <= i < |items| :: PersonKey(items[i].iv) != key
    ensures EvidenceOf(items, key, dim) == [] && RoundsWith(items, key) == []
  {
    if items != [] { NothingOfStrangers(items[..|items| - 1], key, dim); }
  }

  /** The table holds everyone met who has a role or a name, with exactly the evidence their interviews gave. */
  lemma {:induction false} CollectedExactly(items: seq<Item>, key: string)
    ensures var t := Collect(items);
            && (key in t.people <==> key != "" && Met(items, key))
            && (key in t.people ==> RecordOf(items, key, t.people[key]))
  {
    if items != [] {
      var init, it := items[..|items| - 1], items[|items| - 1];
      assert items == init + [it];
      CollectedExactly(init, key);
      MetIsSomewhere(init, key);
      MetIsSomewhere(items, key);
      assert forall j | 0 <= j < |init| :: init[j] == items[j];
      FirstGrows(init, it, key);
      if PersonKey(it.iv) == key && key != "" {
        if key !in Collect(init).people {
          StartsEmpty(init, it, key);
          ItemAdded(init, it, key, NewRecord(it));
        } else {
          ItemAdded(init, it, key, Collect(init).people[key]);
        }
      } else if key in Collect(items).people {
        OthersAdd(init, it, key, Collect(init).people[key]);
      }
    }
  }

  lemma StartsEmpty(items: seq<Item>, it: Item, key: string)
    requires !Met(items, key)
    ensures RecordOf(items, key, NewRecord(it))
  {
    MetIsSomewhere(items, key);
    NothingOfStrangers(items, key, "");
    forall dim ensures EvidenceOf(items, key, dim) == [] { NothingOfStrangers(items, key, dim); }
  }

  lemma OthersAdd(items: seq<Item>, it: Item, key: string, p: Record)
    requires RecordOf(items, key, p) && PersonKey(it.iv) != key
    ensures RecordOf(items + [it], key, p)
  {
    var all := items + [it];
    assert all[..|items|] == items;
    FirstGrows(items, it, key);
    forall dim ensures EvidenceOf(all, key, dim) == EvidenceOf(items, key, dim) {
      assert EvidenceOf(items, key, dim) + [] == EvidenceOf(items, key, dim);
    }
  }

  // ---------- Everyone ----------

  ghost predicate Lists(t: Table) {
    && (forall k :: k in t.order <==> k in t.people)
    && forall a, b {:trigger t.order[a], t.order[b]} | 0 <= a < b < |t.order| :: t.order[a] != t.order[b]
  }

  lemma {:induction false} TableLists(items: seq<Item>)
    ensures Lists(Collect(items))
  {
    if items != [] { TableLists(items[..|items| - 1]); }
  }

  lemma {:induction false} WithEvidenceExactly(t: Table, order: seq<string>, k: string)
    ensures k in WithEvidence(t, order) <==> k in order && k in t.people && t.people[k].history != map[]
  {
    if order != [] {
      assert order == order[..|order| - 1] + [order[|order| - 1]];
      WithEvidenceExactly(t, order[..|order| - 1], k);
    }
  }

  /** The one was met before the other. */
  ghost predicate MetBefore(items: seq<Item>, k: string, l: string) {
    forall i, j | FirstOf(items, k, i) && FirstOf(items, l, j) :: i < j
  }

  ghost predicate InOrderOfAppearance(items: seq<Item>, order: seq<string>) {
    forall a, b {:trigger order[a], order[b]} | 0 <= a < b < |order| :: MetBefore(items, order[a], order[b])
  }

  lemma StillMetBefore(items: seq<Item>, it: Item, k: string, l: string)
    requires Met(items, k) && (if Met(items, l) then MetBefore(items, k, l) else true)
    ensures MetBefore(items + [it], k, l)
  {
    FirstGrows(items, it, k);
    FirstGrows(items, it, l);
  }

  /** Everyone is listed in the order in which they were met. */
  lemma {:induction false} ListedAsMet(items: seq<Item>)
    ensures InOrderOfAppearance(items, Collect(items).order)
  {
    if items != [] {
      var init, it := items[..|items| - 1], items[|items| - 1];
      assert items == init + [it];
      ListedAsMet(init);
      TableLists(init);
      var before, order := Collect(init).order, Collect(items).order;
      forall a, b {:trigger order[a], order[b]} | 0 <= a < b < |order| ensures MetBefore(items, order[a], order[b]) {
        assert order[a] == before[a] && before[a] in Collect(init).people;
        CollectedExactly(init, order[a]);
        if b < |before| {
          assert order[b] == before[b];
        } else {
          CollectedExactly(init, order[b]);
        }
        StillMetBefore(init, it, order[a], order[b]);
      }
    }
  }

  lemma {:induction false} RoundsAre(items: seq<Item>)
    ensures RoundsOf(items) == seq(|items|, i requires 0 <= i < |items| => items[i].round)
  {
    if items != [] { RoundsAre(items[..|items| - 1]); }
  }

  /** The newest round is that: there is an interview in it, and none in a later one. */
  lemma NewestIsNewest(items: seq<Item>)
    ensures var newest := Remember(items).newestRound;
            && (newest.None? <==> items == [])
            && (items != [] ==> exists i :: 0 <= i < |items| && items[i].round == newest.value)
            && (forall i | 0 <= i < |items| :: items[i].round <= newest.value)
  {
    RoundsAre(items);
    MaxRoundIsMax(RoundsOf(items));
    assert forall i | 0 <= i < |items| :: RoundsOf(items)[i] == items[i].round;
  }

  /** Somebody else is named in the role. */
  predicate AnotherNamed(items: seq<Item>, role: string, person: string) {
    exists it :: it in items && it.iv.role == role && it.iv.person != "" && it.iv.person != person
  }

  /** People are attributed by role, and by name too exactly where somebody else is named in it. */
  lemma AttributedByName(items: seq<Item>, key: string)
    requires key in Remember(items).people
    ensures var p := Remember(items).people[key];
            p.role != "" ==>
              p.attribution == if p.person != "" && AnotherNamed(items, p.role, p.person) then p.role + " (" + p.person + ")" else p.role
  {
    var p := Remember(items).people[key];
    var names := NamesIn(items, p.role);
    CollectedExactly(items, key);
    assert Met(items, key);
    var i :| FirstOf(items, key, i);
    assert items[i] in items && items[i].iv.role == p.role && items[i].iv.person == p.person;
    if p.role != "" && p.person != "" {
      assert p.person in names;
      if AnotherNamed(items, p.role, p.person) {
        var it :| it in items && it.iv.role == p.role && it.iv.person != "" && it.iv.person != p.person;
        TwoNames(names, p.person, it.iv.person);
      } else {
        assert names == {p.person};
      }
    }
  }

  lemma TwoNames(names: set<string>, a: string, b: string)
    requires a in names && b in names && a != b
    ensures |names| > 1
  {
    assert names == {a, b} + (names - {a, b});
  }

  /**
   The memory, exactly: it holds the people whose interviews gave evidence on one of the seven dimensions, those and no
   others, and of each just the dimensions with evidence; what stands on one is made of that evidence and no other.
   */
  lemma RememberedExactly(items: seq<Item>, key: string)
    ensures var m := Remember(items);
            && (key in m.people <==> key != "" && exists d :: IsDimension(d) && EvidenceOf(items, key, d) != [])
            && (key in m.order <==> key in m.people)
            && (key in m.people ==> forall d :: d in m.people[key].dims <==> IsDimension(d) && EvidenceOf(items, key, d) != [])
            && (key in m.people ==> forall d | d in m.people[key].dims ::
                  m.people[key].dims[d] == StandingOf(EvidenceOf(items, key, d), RoundsWith(items, key), m.newestRound))
            && (key in m.people ==> m.people[key].rounds == RoundsWith(items, key))
  {
    var t := Collect(items);
    CollectedExactly(items, key);
    TableLists(items);
    WithEvidenceExactly(t, t.order, key);
    MetIsSomewhere(items, key);
    if key in t.people {
      var p := t.people[key];
      if p.history != map[] {
        var d :| d in p.history;
        assert HistoryOf(p.history, d) != [];
      }
      forall d ensures d in p.history <==> IsDimension(d) && EvidenceOf(items, key, d) != [] {
        assert HistoryOf(p.history, d) == if IsDimension(d) then EvidenceOf(items, key, d) else [];
      }
    } else if key != "" {
      forall d ensures EvidenceOf(items, key, d) == [] { NothingOfStrangers(items, key, d); }
    }
  }

  lemma {:induction false} EvidenceKeepsOrder(items: seq<Item>, t: Table, order: seq<string>)
    requires InOrderOfAppearance(items, order)
    ensures InOrderOfAppearance(items, WithEvidence(t, order))
  {
    if order != [] {
      var init, k := order[..|order| - 1], order[|order| - 1];
      EvidenceKeepsOrder(items, t, init);
      var kept, all := WithEvidence(t, init), WithEvidence(t, order);
      forall a, b {:trigger all[a], all[b]} | 0 <= a < b < |all| ensures MetBefore(items, all[a], all[b]) {
        WithEvidenceExactly(t, init, all[a]);
        assert all[a] == kept[a] && all[a] in init;
        var i :| 0 <= i < |init| && init[i] == all[a];
        assert order[i] == all[a] && order[|init|] == k;
        if b < |kept| { assert all[b] == kept[b]; }
      }
    }
  }

  /** So are those who are remembered. */
  lemma RememberedAsMet(items: seq<Item>)
    ensures InOrderOfAppearance(items, Remember(items).order)
  {
    ListedAsMet(items);
    EvidenceKeepsOrder(items, Collect(items), Collect(items).order);
  }

  /** A person is shown what is remembered of them, if there is any evidence of theirs. */
  lemma SelfViewExactly(items: seq<Item>, key: string)
    ensures var mine := SelfView(Remember(items), key);
            && (mine.Some? <==> key != "" && exists d :: IsDimension(d) && EvidenceOf(items, key, d) != [])
            && (mine.Some? ==> mine.value == Remember(items).people[key])
  {
    RememberedExactly(items, key);
  }

  // ---------- What is shown of the others ----------

  /** Somebody other than the one who asks is remembered to have said this last on the dimension. */
  predicate SaidByAnother(m: Memory, key: string, dim: string, pk: string, text: string) {
    pk in m.order && pk != key && pk in m.people && dim in m.people[pk].dims && m.people[pk].dims[dim].latest.text == text != ""
  }

  lemma {:induction false} LinesAreSaid(m: Memory, order: seq<string>, key: string, dim: string, l: Line)
    requires l in Lines(m, order, key, dim)
    ensures exists pk :: pk in order && LineOf(m, pk, key, dim) == [l]
  {
    var init, last := order[..|order| - 1], order[|order| - 1];
    assert order == init + [last];
    if l in Lines(m, init, key, dim) {
      LinesAreSaid(m, init, key, dim, l);
    } else {
      assert LineOf(m, last, key, dim) == [l];
    }
  }

  /** Only what another said is shown, and something is if anything was said. */
  lemma ShownIsSaid(m: Memory, key: string, dim: string)
    ensures forall text | text in AmbientOn(m, key, dim) :: exists pk :: SaidByAnother(m, key, dim, pk, text)
    ensures AmbientOn(m, key, dim) != [] <==> exists pk, text :: SaidByAnother(m, key, dim, pk, text)
  {
    var lines := Lines(m, m.order, key, dim);
    var ls := SortLines(lines);
    var shown := if |ls| < AMBIENT_PER_DIM then ls else ls[..AMBIENT_PER_DIM];
    SortLinesIsSort(lines);
    TextsAre(shown);
    forall text | text in Texts(shown) ensures exists pk :: SaidByAnother(m, key, dim, pk, text) {
      var i :| 0 <= i < |shown| && Texts(shown)[i] == text;
      assert shown[i] == ls[i] && ls[i] in multiset(ls) && ls[i] in multiset(lines);
      LinesAreSaid(m, m.order, key, dim, ls[i]);
      var pk :| pk in m.order && LineOf(m, pk, key, dim) == [ls[i]];
      assert SaidByAnother(m, key, dim, pk, text);
    }
    if AmbientOn(m, key, dim) != [] { assert AmbientOn(m, key, dim)[0] in AmbientOn(m, key, dim); }
    if pk, text :| SaidByAnother(m, key, dim, pk, text) {
      LineIsAmong(m, m.order, key, dim, pk);
      assert Line(m.people[pk].dims[dim].latest.round, text) in LineOf(m, pk, key, dim);
      assert |multiset(ls)| == |multiset(lines)| > 0;
    }
  }

  /** The view has the dimensions asked for, or all seven if none is, on which another said something. */
  lemma ViewExactly(m: Memory, key: string, dims: seq<string>, dim: string)
    ensures dim in AmbientView(m, key, dims) <==>
              (if dims == [] then IsDimension(dim) else dim in dims) && exists pk, text :: SaidByAnother(m, key, dim, pk, text)
    ensures dim in AmbientView(m, key, dims) ==> AmbientView(m, key, dims)[dim] == AmbientOn(m, key, dim)
  {
    ShownIsSaid(m, key, dim);
  }
}
