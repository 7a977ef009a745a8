/**
 Salvage of a JSON document that was cut off. The scan must not be misled by brackets inside strings,
 and what is handed to the parser is a prefix of the text with closing brackets added, squares first.
 */
module JsonRepair {
  import opened Options

  datatype Lex = Lex(inStr: bool, esc: bool)

  const OUTSIDE: Lex := Lex(false, false)

  function Next(l: Lex, ch: char): Lex {
    if l.esc then Lex(l.inStr, false)
    else if ch == '\\' then Lex(l.inStr, true)
    else if ch == '"' then Lex(!l.inStr, false)
    else l
  }

  /** The scanner's flags after `n` characters. */
  function LexAt(s: string, n: nat): Lex
    requires n <= |s|
  {
    if n == 0 then OUTSIDE else Next(LexAt(s, n - 1), s[n - 1])
  }

  predicate Opener(ch: char) {
    ch == '{' || ch == '['
  }

  predicate Closer(ch: char) {
    ch == '}' || ch == ']'
  }

  predicate Bracket(ch: char) {
    Opener(ch) || Closer(ch)
  }

  /** The scanner takes the character at `i` for part of the document's structure. */
  predicate Seen(s: string, i: nat)
    requires i < |s|
  {
    LexAt(s, i) == OUTSIDE && s[i] != '\\' && s[i] != '"'
  }

  /** The brackets the scanner counts among the first `n` characters. */
  function Brackets(s: string, n: nat): string
    requires n <= |s|
  {
    if n == 0 then ""
    else if Seen(s, n - 1) && Bracket(s[n - 1]) then Brackets(s, n - 1) + [s[n - 1]]
    else Brackets(s, n - 1)
  }

  // ---------- The reference: RFC 8259, sections 2 and 7 ----------

  /** The position after the string whose contents start at `i`. */
  function SkipString(s: string, i: nat): (r: nat)
    ensures i <= r
    decreases |s| - i
  {
    if i >= |s| then i
    else if s[i] == '\\' then SkipString(s, i + 2)
    else if s[i] == '"' then i + 1
    else SkipString(s, i + 1)
  }

  /** The brackets from position `i`, outside a string, skipping every string whole. */
  function Structure(s: string, i: nat): string
    decreases |s| - i
  {
    if i >= |s| then ""
    else if s[i] == '"' then Structure(s, SkipString(s, i + 1))
    else (if Bracket(s[i]) then [s[i]] else "") + Structure(s, i + 1)
  }

  /** No backslash stands outside a string; none does in a prefix of a JSON text. */
  predicate NoStray(s: string, i: nat)
    decreases |s| - i
  {
    i >= |s| || (if s[i] == '"' then NoStray(s, SkipString(s, i + 1)) else s[i] != '\\' && NoStray(s, i + 1))
  }

  /** The scanner's brackets from position `i` on. */
  function From(s: string, i: nat, l: Lex): string
    decreases |s| - i
  {
    if i >= |s| then ""
    else (if l == OUTSIDE && Bracket(s[i]) then [s[i]] else "") + From(s, i + 1, Next(l, s[i]))
  }

  lemma {:induction false} FromIsRest(s: string, n: nat)
    requires n <= |s|
    ensures Brackets(s, n) + From(s, n, LexAt(s, n)) == Brackets(s, |s|)
    decreases |s| - n
  {
    if n < |s| {
      FromIsRest(s, n + 1);
      assert Next(LexAt(s, n), s[n]) == LexAt(s, n + 1);
    } else {
      assert From(s, n, LexAt(s, n)) == "";
    }
  }

  /** Inside a string the scanner counts nothing until the string is over. */
  lemma {:induction false} StringIsSkipped(s: string, i: nat)
    ensures From(s, i, Lex(true, false)) == From(s, SkipString(s, i), OUTSIDE)
    decreases |s| - i
  {
    if i < |s| {
      if s[i] == '\\' {
        if i + 1 < |s| {
          assert From(s, i + 1, Lex(true, true)) == From(s, i + 2, Lex(true, false));
        }
        StringIsSkipped(s, i + 2);
      } else if s[i] != '"' {
        StringIsSkipped(s, i + 1);
      }
    }
  }

  lemma FromStep(s: string, i: nat)
    requires i < |s| && s[i] != '\\'
    ensures From(s, i, OUTSIDE) ==
            if s[i] == '"' then From(s, SkipString(s, i + 1), OUTSIDE)
            else (if Bracket(s[i]) then [s[i]] else "") + From(s, i + 1, OUTSIDE)
  {
    if s[i] == '"' {
      StringIsSkipped(s, i + 1);
      assert From(s, i, OUTSIDE) == From(s, i + 1, Lex(true, false));
    }
  }

  lemma {:induction false} FromIsStructure(s: string, i: nat)
    requires NoStray(s, i)
    ensures From(s, i, OUTSIDE) == Structure(s, i)
    decreases |s| - i
  {
    if i < |s| {
      FromStep(s, i);
      FromIsStructure(s, if s[i] == '"' then SkipString(s, i + 1) else i + 1);
    }
  }

  /** The scan counts exactly the brackets that are not inside strings, escapes and quotes included. */
  lemma ScanIgnoresStrings(s: string)
    requires NoStray(s, 0)
    ensures Brackets(s, |s|) == Structure(s, 0)
  {
    FromIsRest(s, 0);
    FromIsStructure(s, 0);
  }

  // ---------- Nesting ----------

  predicate Closes(open: char, close: char) {
    (open == '{' && close == '}') || (open == '[' && close == ']')
  }

  /** What is still open after the brackets, or none if they do not nest. */
  function Open(bs: string): Option<string> {
    if bs == "" then Some("")
    else
      var before, ch := Open(bs[..|bs| - 1]), bs[|bs| - 1];
      if before.None? then None
      else
        var st := before.value;
        if Opener(ch) then Some(st + [ch])
        else if st != "" && Closes(st[|st| - 1], ch) then Some(st[..|st| - 1])
        else None
  }

  function Count(bs: string, ch: char): nat {
    if bs == "" then 0 else Count(bs[..|bs| - 1], ch) + if bs[|bs| - 1] == ch then 1 else 0
  }

  function Curly(bs: string): int {
    Count(bs, '{') - Count(bs, '}')
  }

  function Square(bs: string): int {
    Count(bs, '[') - Count(bs, ']')
  }

  lemma OpenPrefix(bs: string, ch: char)
    ensures (bs + [ch])[..|bs|] == bs && (bs + [ch])[|bs|] == ch
  {
  }

  lemma CountAppend(bs: string, x: char, ch: char)
    ensures Count(bs + [x], ch) == Count(bs, ch) + if x == ch then 1 else 0
  {
    OpenPrefix(bs, x);
  }

  /** In brackets that nest, the two depths count what is open. */
  lemma {:induction false} DepthsCountOpen(bs: string)
    requires Open(bs).Some? && forall i | 0 <= i < |bs| :: Bracket(bs[i])
    ensures var st := Open(bs).value;
            Curly(bs) == Count(st, '{') && Square(bs) == Count(st, '[') && (forall i | 0 <= i < |st| :: Opener(st[i]))
  {
    if bs != "" {
      var init, ch := bs[..|bs| - 1], bs[|bs| - 1];
      DepthsCountOpen(init);
      var st := Open(init).value;
      if Opener(ch) {
        CountAppend(st, ch, '{');
        CountAppend(st, ch, '[');
      }
    }
  }

  function Repeat(ch: char, n: nat): string {
    if n == 0 then "" else Repeat(ch, n - 1) + [ch]
  }

  /** Nothing curly is open inside something square. */
  predicate CurliesEncloseSquares(st: string) {
    forall i, j | 0 <= i < j < |st| :: !(st[i] == '[' && st[j] == '{')
  }

  lemma CloseOne(bs: string, ch: char)
    requires Closer(ch)
    ensures Open(bs + [ch]) ==
            if Open(bs).None? || Open(bs).value == "" || !Closes(Open(bs).value[|Open(bs).value| - 1], ch) then None
            else Some(Open(bs).value[..|Open(bs).value| - 1])
  {
    OpenPrefix(bs, ch);
  }

  /** The top `n` of what is open are all closed by `ch`. */
  predicate ClosedBy(st: string, ch: char, n: nat) {
    n <= |st| && forall i | |st| - n <= i < |st| :: Closes(st[i], ch)
  }

  lemma {:induction false} CloseMany(bs: string, ch: char, n: nat)
    requires Open(bs).Some? && Closer(ch)
    ensures Open(bs + Repeat(ch, n)) == if ClosedBy(Open(bs).value, ch, n) then Some(Open(bs).value[..|Open(bs).value| - n]) else None
  {
    if n == 0 {
      var st := Open(bs).value;
      assert bs + Repeat(ch, 0) == bs && st[..|st|] == st && ClosedBy(st, ch, 0);
    } else {
      CloseMany(bs, ch, n - 1);
      assert bs + Repeat(ch, n) == bs + Repeat(ch, n - 1) + [ch];
      CloseOneMore(bs + Repeat(ch, n - 1), Open(bs).value, ch, n);
    }
  }

  lemma CloseOneMore(before: string, st: string, ch: char, n: nat)
    requires n > 0 && Closer(ch) && Open(before) == if ClosedBy(st, ch, n - 1) then Some(st[..|st| - (n - 1)]) else None
    ensures Open(before + [ch]) == if ClosedBy(st, ch, n) then Some(st[..|st| - n]) else None
  {
    CloseOne(before, ch);
    assert ClosedBy(st, ch, n) <==> ClosedBy(st, ch, n - 1) && n <= |st| && Closes(st[|st| - n], ch);
    if ClosedBy(st, ch, n - 1) && n <= |st| {
      assert st[..|st| - (n - 1)][|st| - n] == st[|st| - n];
      assert st[..|st| - (n - 1)][..|st| - n] == st[..|st| - n];
    }
  }

  lemma {:induction false} CountAtMost(st: string, ch: char)
    ensures Count(st, ch) <= |st|
    ensures Count(st, ch) == |st| <==> forall i | 0 <= i < |st| :: st[i] == ch
  {
    if st != "" {
      var init := st[..|st| - 1];
      CountAtMost(init, ch);
      assert forall i | 0 <= i < |init| :: init[i] == st[i];
    }
  }

  lemma {:induction false} CountSplit(st: string, k: nat, ch: char)
    requires k <= |st|
    ensures Count(st, ch) == Count(st[..k], ch) + Count(st[k..], ch)
    decreases |st| - k
  {
    if k == |st| {
      assert st[..k] == st;
    } else {
      var init := st[..|st| - 1];
      CountSplit(init, k, ch);
      assert init[..k] == st[..k] && init[k..] == st[k..][..|st[k..]| - 1];
    }
  }

  lemma {:induction false} CountsFill(st: string)
    requires forall i | 0 <= i < |st| :: Opener(st[i])
    ensures Count(st, '{') + Count(st, '[') == |st|
  {
    if st != "" { CountsFill(st[..|st| - 1]); }
  }

  lemma OnlySquares(st: string)
    requires forall i | 0 <= i < |st| :: Opener(st[i])
    requires var q := Count(st, '['); q <= |st| && forall i | |st| - q <= i < |st| :: st[i] == '['
    ensures forall i | 0 <= i < |st| - Count(st, '[') :: st[i] == '{'
  {
    var q := Count(st, '[');
    var c := |st| - q;
    CountSplit(st, c, '[');
    CountAtMost(st[c..], '[');
    CountsFill(st[..c]);
    CountAtMost(st[..c], '{');
    assert forall i | 0 <= i < c :: st[..c][i] == st[i];
  }

  /** The squares are the top of the stack exactly when nothing curly is open inside them. */
  lemma SquaresOnTop(st: string)
    requires forall i | 0 <= i < |st| :: Opener(st[i])
    ensures var q := Count(st, '[');
            q <= |st| && Count(st, '{') == |st| - q && (CurliesEncloseSquares(st) <==> forall i | |st| - q <= i < |st| :: st[i] == '[')
  {
    CountsFill(st);
    var q := Count(st, '[');
    var c := |st| - q;
    if forall i | c <= i < |st| :: st[i] == '[' {
      OnlySquares(st);
    } else {
      var j :| c <= j < |st| && st[j] != '[';
      CountSplit(st, c, '[');
      CountAtMost(st[c..], '[');
      assert st[c..][j - c] != '[';
      CountsFill(st[..c]);
      CountAtMost(st[..c], '{');
      var i :| 0 <= i < c && st[..c][i] != '{';
      assert st[i] == '[' && st[j] == '{';
    }
  }

  /** Closing all squares and then all curlies closes everything exactly when that is the order they are open in. */
  lemma SquaresFirstCloses(bs: string)
    requires Open(bs).Some? && forall i | 0 <= i < |bs| :: Bracket(bs[i])
    ensures Curly(bs) >= 0 && Square(bs) >= 0
    ensures Open(bs + Repeat(']', Square(bs)) + Repeat('}', Curly(bs))) == Some("") <==> CurliesEncloseSquares(Open(bs).value)
  {
    DepthsCountOpen(bs);
    ClosingInOrder(bs, Open(bs).value);
  }

  lemma ClosingInOrder(bs: string, st: string)
    requires Open(bs) == Some(st) && forall i | 0 <= i < |st| :: Opener(st[i])
    ensures Open(bs + Repeat(']', Count(st, '[')) + Repeat('}', Count(st, '{'))) == Some("") <==> CurliesEncloseSquares(st)
  {
    var q, c := Count(st, '['), Count(st, '{');
    SquaresOnTop(st);
    CloseMany(bs, ']', q);
    if CurliesEncloseSquares(st) {
      OnlySquares(st);
      assert ClosedBy(st, ']', q);
      CloseMany(bs + Repeat(']', q), '}', c);
    } else {
      assert !ClosedBy(st, ']', q);
      NoneStays(bs + Repeat(']', q), Repeat('}', c));
    }
  }

  lemma {:induction false} NoneStays(bs: string, more: string)
    requires Open(bs) == None
    ensures Open(bs + more) == None
    decreases |more|
  {
    if more == "" {
      assert bs + more == bs;
    } else {
      NoneStays(bs, more[..|more| - 1]);
      assert bs + more == (bs + more[..|more| - 1]) + [more[|more| - 1]];
      OpenPrefix(bs + more[..|more| - 1], more[|more| - 1]);
    }
  }
}
