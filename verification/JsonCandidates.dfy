/**
 The texts the salvage hands to the parser: what they are made of, when they are balanced, and the
 loops that build them.
 */
module JsonCandidates {
  import opened Options
  import opened JsonRepair

  /** A closing bracket that the scanner counts and that closes something of its kind. */
  predicate GoodAt(s: string, i: nat)
    requires i < |s|
  {
    && Seen(s, i)
    && ((s[i] == '}' && Curly(Brackets(s, i + 1)) >= 0) || (s[i] == ']' && Square(Brackets(s, i + 1)) >= 0))
  }

  function LastGood(s: string, n: nat): (r: int)
    requires n <= |s|
    ensures -1 <= r < n && (r >= 0 ==> GoodAt(s, r))
  {
    if n == 0 then -1 else if GoodAt(s, n - 1) then n - 1 else LastGood(s, n - 1)
  }

  lemma {:induction false} NoneGoodAfter(s: string, n: nat, i: nat)
    requires n <= |s| && LastGood(s, n) < i < n
    ensures !GoodAt(s, i)
  {
    if i < n - 1 { NoneGoodAfter(s, n - 1, i); }
  }

  /** A comma between the members of the outermost object or array. */
  predicate CommaAt(s: string, i: nat)
    requires i < |s|
  {
    Seen(s, i) && s[i] == ',' && Curly(Brackets(s, i)) + Square(Brackets(s, i)) == 1
  }

  function LastComma(s: string, n: nat): (r: int)
    requires n <= |s|
    ensures -1 <= r < n && (r >= 0 ==> CommaAt(s, r))
  {
    if n == 0 then -1 else if CommaAt(s, n - 1) then n - 1 else LastComma(s, n - 1)
  }

  lemma {:induction false} NoCommaAfter(s: string, n: nat, i: nat)
    requires n <= |s| && LastComma(s, n) < i < n
    ensures !CommaAt(s, i)
  {
    if i < n - 1 { NoCommaAfter(s, n - 1, i); }
  }

  predicate Space(ch: char) {
    ch in " \t\r\n"
  }

  /** Drop a comma at the end, and the white space after it. */
  function TrimComma(s: string): string {
    if s != "" && s[|s| - 1] == ',' then s[..|s| - 1]
    else if s != "" && Space(s[|s| - 1]) && TrimComma(s[..|s| - 1]) != s[..|s| - 1] then TrimComma(s[..|s| - 1])
    else s
  }

  function Plus(n: int): nat {
    if n < 0 then 0 else n
  }

  function CloseUp(head: string): string {
    head + Repeat(']', Plus(Square(Brackets(head, |head|)))) + Repeat('}', Plus(Curly(Brackets(head, |head|))))
  }

  function Salvaged(s: string, n: nat): string
    requires n <= |s|
  {
    CloseUp(TrimComma(s[..n]))
  }

  /** The text up to the last closing bracket, closed up. */
  function First(s: string): Option<string> {
    var n := LastGood(s, |s|) + 1;
    if n > 0 then Some(Salvaged(s, n)) else None
  }

  /** The text up to the last outermost comma, closed once. */
  function Second(s: string): Option<string> {
    var n := LastComma(s, |s|);
    if n > 0 then Some(s[..n] + [if s[0] == '[' then ']' else '}']) else None
  }

  /** The brackets nest and all are closed, and the text does not end in a string. */
  predicate Balanced(t: string) {
    LexAt(t, |t|) == OUTSIDE && Open(Brackets(t, |t|)) == Some("")
  }

  predicate Nests(s: string) {
    Open(Brackets(s, |s|)).Some?
  }

  // ---------- Prefixes and added closers ----------

  lemma {:induction false} PrefixScansAlike(s: string, n: nat, k: nat)
    requires k <= n <= |s|
    ensures LexAt(s[..n], k) == LexAt(s, k) && Brackets(s[..n], k) == Brackets(s, k)
  {
    if k > 0 { PrefixScansAlike(s, n, k - 1); }
  }

  lemma {:induction false} BracketsAreBrackets(s: string, n: nat)
    requires n <= |s|
    ensures forall i | 0 <= i < |Brackets(s, n)| :: Bracket(Brackets(s, n)[i])
  {
    if n > 0 { BracketsAreBrackets(s, n - 1); }
  }

  lemma {:induction false} NestsBefore(s: string, n: nat)
    requires n <= |s| && Nests(s)
    ensures Open(Brackets(s, n)).Some?
    decreases |s| - n
  {
    if n < |s| {
      NestsBefore(s, n + 1);
      if Seen(s, n) && Bracket(s[n]) {
        OpenPrefix(Brackets(s, n), s[n]);
      }
    }
  }

  lemma AppendCloser(t: string, ch: char)
    requires LexAt(t, |t|) == OUTSIDE && Closer(ch)
    ensures LexAt(t + [ch], |t| + 1) == OUTSIDE && Brackets(t + [ch], |t| + 1) == Brackets(t, |t|) + [ch]
  {
    var u := t + [ch];
    assert u[..|t|] == t && u[|t|] == ch;
    PrefixScansAlike(u, |t|, |t|);
  }

  lemma {:induction false} AppendClosers(head: string, more: string)
    requires LexAt(head, |head|) == OUTSIDE && forall i | 0 <= i < |more| :: Closer(more[i])
    ensures var t := head + more; LexAt(t, |t|) == OUTSIDE && Brackets(t, |t|) == Brackets(head, |head|) + more
    decreases |more|
  {
    if more == "" {
      assert head + more == head && Brackets(head, |head|) + more == Brackets(head, |head|);
    } else {
      var init, ch := more[..|more| - 1], more[|more| - 1];
      AppendClosers(head, init);
      AppendCloser(head + init, ch);
      assert more == init + [ch];
      assert head + more == head + init + [ch];
      assert Brackets(head, |head|) + init + [ch] == Brackets(head, |head|) + more;
    }
  }

  lemma {:induction false} RepeatIs(ch: char, n: nat)
    ensures |Repeat(ch, n)| == n && forall i | 0 <= i < n :: Repeat(ch, n)[i] == ch
  {
    if n > 0 { RepeatIs(ch, n - 1); }
  }

  // ---------- The first candidate ----------

  /** Nothing is trimmed after a closing bracket. */
  lemma ClosingBracketIsKept(s: string, n: nat)
    requires 0 < n <= |s| && Closer(s[n - 1])
    ensures Salvaged(s, n) == CloseUp(s[..n])
  {
    assert s[..n][|s[..n]| - 1] == s[n - 1];
  }

  /** At a recovery point the scanner stands outside strings, on a closing bracket, so no comma is trimmed. */
  lemma HeadIsClean(s: string, n: nat)
    requires 0 < n <= |s| && GoodAt(s, n - 1)
    ensures LexAt(s[..n], n) == OUTSIDE && Salvaged(s, n) == CloseUp(s[..n])
  {
    PrefixScansAlike(s, n, n);
    ClosingBracketIsKept(s, n);
  }

  lemma ClosedUpIsPrefix(head: string)
    ensures head <= CloseUp(head) && forall i | |head| <= i < |CloseUp(head)| :: Closer(CloseUp(head)[i])
  {
    RepeatIs(']', Plus(Square(Brackets(head, |head|))));
    RepeatIs('}', Plus(Curly(Brackets(head, |head|))));
  }

  /** Whatever the text, the first candidate is a prefix of it with closing brackets added. */
  lemma FirstIsClosedPrefix(s: string, n: nat)
    requires n == LastGood(s, |s|) + 1 > 0
    ensures First(s).Some? && s[..n] <= First(s).value && forall i | n <= i < |First(s).value| :: Closer(First(s).value[i])
  {
    HeadIsClean(s, n);
    ClosedUpIsPrefix(s[..n]);
  }

  /** And so is the second, with one. */
  lemma SecondIsClosedPrefix(s: string)
    requires Second(s).Some?
    ensures exists m, ch :: 0 < m < |s| && Closer(ch) && s[m] == ',' && Second(s).value == s[..m] + [ch]
  {
    var m, ch := LastComma(s, |s|), if s[0] == '[' then ']' else '}';
    assert CommaAt(s, m) && Closer(ch);
    assert Second(s).value == s[..m] + [ch];
  }

  /** `n - 1` is the last recovery point. */
  ghost predicate CutAfter(s: string, n: int) {
    0 < n <= |s| && GoodAt(s, n - 1) && forall i | n <= i < |s| :: !GoodAt(s, i)
  }

  /** `n` is the last comma of the outermost object or array. */
  ghost predicate CutBefore(s: string, n: int) {
    0 <= n < |s| && CommaAt(s, n) && forall i | n < i < |s| :: !CommaAt(s, i)
  }

  lemma CutIsLast(s: string, n: int)
    ensures CutAfter(s, n) <==> n == LastGood(s, |s|) + 1 > 0
  {
    var m := LastGood(s, |s|) + 1;
    forall i | m <= i < |s| ensures !GoodAt(s, i) { NoneGoodAfter(s, |s|, i); }
  }

  /** There is a first candidate exactly if there is a recovery point, and it is cut after the last. */
  lemma FirstExactly(s: string)
    ensures First(s).Some? <==> exists n :: CutAfter(s, n)
    ensures forall n | CutAfter(s, n) :: First(s) == Some(CloseUp(s[..n]))
  {
    var n := LastGood(s, |s|) + 1;
    CutIsLast(s, n);
    if n > 0 { HeadIsClean(s, n); }
    forall m | CutAfter(s, m) ensures m == n { CutIsLast(s, m); }
  }

  /** There is a second exactly if there is a comma in the outermost object or array, and it is cut before the last. */
  lemma SecondExactly(s: string)
    ensures Second(s).Some? <==> exists i :: 0 <= i < |s| && CommaAt(s, i)
    ensures forall n | CutBefore(s, n) :: Second(s) == Some(s[..n] + if s[0] == '[' then "]" else "}")
  {
    var n := LastComma(s, |s|);
    forall i | n < i < |s| ensures !CommaAt(s, i) { NoCommaAfter(s, |s|, i); }
    if n >= 0 {
      assert CutBefore(s, n);
    }
  }

  lemma CountedCloserIsGood(s: string, i: nat)
    requires Nests(s) && i < |s| && Seen(s, i) && Closer(s[i])
    ensures GoodAt(s, i)
  {
    var bs := Brackets(s, i + 1);
    NestsBefore(s, i + 1);
    BracketsAreBrackets(s, i + 1);
    DepthsCountOpen(bs);
  }

  /** In brackets that nest every closing bracket is a recovery point, so after the last one nothing is closed. */
  lemma NothingClosesLater(s: string, i: nat)
    requires Nests(s) && LastGood(s, |s|) < i < |s|
    ensures !(Seen(s, i) && Closer(s[i]))
  {
    NoneGoodAfter(s, |s|, i);
    if Seen(s, i) && Closer(s[i]) {
      CountedCloserIsGood(s, i);
    }
  }

  lemma CloseUpBalances(head: string)
    requires LexAt(head, |head|) == OUTSIDE && Nests(head)
    ensures Balanced(CloseUp(head)) <==> CurliesEncloseSquares(Open(Brackets(head, |head|)).value)
  {
    var bs := Brackets(head, |head|);
    BracketsAreBrackets(head, |head|);
    SquaresFirstCloses(bs);
    ClosersAppend(head, Square(bs), Curly(bs));
  }

  /**
   The first candidate is balanced exactly when, where the text is cut, curly brackets enclose square
   ones only: closers are added squares first, so an object open inside an array defeats it.
   */
  lemma FirstIsBalanced(s: string, n: nat)
    requires Nests(s) && n == LastGood(s, |s|) + 1 > 0
    ensures First(s).Some? && Open(Brackets(s, n)).Some?
    ensures Balanced(First(s).value) <==> CurliesEncloseSquares(Open(Brackets(s, n)).value)
  {
    HeadIsClean(s, n);
    CutBalances(s, n);
  }

  /** Closing up a prefix that ends outside strings. */
  lemma CutBalances(s: string, n: nat)
    requires n <= |s| && Nests(s) && LexAt(s[..n], n) == OUTSIDE
    ensures Open(Brackets(s, n)).Some?
    ensures Balanced(CloseUp(s[..n])) <==> CurliesEncloseSquares(Open(Brackets(s, n)).value)
  {
    NestsBefore(s, n);
    PrefixScansAlike(s, n, n);
    CloseUpBalances(s[..n]);
  }

  lemma ClosersAppend(head: string, q: nat, c: nat)
    requires LexAt(head, |head|) == OUTSIDE
    ensures var t := head + Repeat(']', q) + Repeat('}', c);
            LexAt(t, |t|) == OUTSIDE && Brackets(t, |t|) == Brackets(head, |head|) + Repeat(']', q) + Repeat('}', c)
  {
    RepeatIs(']', q);
    RepeatIs('}', c);
    AppendClosers(head, Repeat(']', q));
    AppendClosers(head + Repeat(']', q), Repeat('}', c));
  }

  // ---------- The second candidate ----------

  /** One document from the first character on, not over before the text ends. */
  predicate OneDocument(s: string) {
    && Nests(s) && s != "" && Opener(s[0])
    && forall n | 1 <= n < |s| :: StillOpen(s, n)
  }

  predicate StillOpen(s: string, n: nat)
    requires n <= |s|
  {
    Open(Brackets(s, n)).Some? && Open(Brackets(s, n)).value != ""
  }

  lemma {:induction false} OutermostIsFirst(s: string, n: nat)
    requires OneDocument(s) && 1 <= n < |s|
    ensures StillOpen(s, n) && Open(Brackets(s, n)).value[0] == s[0]
  {
    assert StillOpen(s, n);
    if n == 1 {
      assert Brackets(s, 1) == [s[0]];
    } else {
      OutermostIsFirst(s, n - 1);
      if Seen(s, n - 1) && Bracket(s[n - 1]) {
        OpenPrefix(Brackets(s, n - 1), s[n - 1]);
      }
    }
  }

  /** The second candidate is always balanced: the outermost comma stands in the object or array the text began with. */
  lemma SecondIsBalanced(s: string)
    requires OneDocument(s) && Second(s).Some?
    ensures Balanced(Second(s).value)
  {
    var n := LastComma(s, |s|);
    var head, ch := s[..n], if s[0] == '[' then ']' else '}';
    var bs := Brackets(s, n);
    OutermostIsFirst(s, n);
    BracketsAreBrackets(s, n);
    DepthsCountOpen(bs);
    CountsFill(Open(bs).value);
    PrefixScansAlike(s, n, n);
    AppendClosers(head, [ch]);
    CloseOne(bs, ch);
  }

  // ---------- The loops ----------

  /** The first scan: the last place the text can be cut. */
  method FindLastGood(body: string) returns (lastGood: int)
    ensures lastGood == LastGood(body, |body|)
  {
    var inStr, esc, depthCurly, depthSq := false, false, 0, 0;
    lastGood := -1;
    for i := 0 to |body|
      invariant LexAt(body, i) == Lex(inStr, esc)
      invariant depthCurly == Curly(Brackets(body, i)) && depthSq == Square(Brackets(body, i))
      invariant lastGood == LastGood(body, i)
    {
      var ch := body[i];
      CountsAt(body, i);
      if esc { esc := false; continue; }
      if ch == '\\' { esc := true; continue; }
      if ch == '"' { inStr := !inStr; continue; }
      if inStr { continue; }
      if ch == '{' { depthCurly := depthCurly + 1; }
      else if ch == '}' { depthCurly := depthCurly - 1; if depthCurly >= 0 { lastGood := i; } }
      else if ch == '[' { depthSq := depthSq + 1; }
      else if ch == ']' { depthSq := depthSq - 1; if depthSq >= 0 { lastGood := i; } }
    }
  }

  lemma CountsAt(s: string, i: nat)
    requires i < |s|
    ensures Curly(Brackets(s, i + 1)) == Curly(Brackets(s, i)) +
            if !Seen(s, i) then 0 else if s[i] == '{' then 1 else if s[i] == '}' then -1 else 0
    ensures Square(Brackets(s, i + 1)) == Square(Brackets(s, i)) +
            if !Seen(s, i) then 0 else if s[i] == '[' then 1 else if s[i] == ']' then -1 else 0
  {
    if Seen(s, i) && Bracket(s[i]) {
      CountAppend(Brackets(s, i), s[i], '{');
      CountAppend(Brackets(s, i), s[i], '}');
      CountAppend(Brackets(s, i), s[i], '[');
      CountAppend(Brackets(s, i), s[i], ']');
    }
  }

  /** The second scan, of the head alone, and the closers it calls for. */
  method CloseHead(head: string) returns (repaired: string)
    ensures repaired == CloseUp(head)
  {
    var inStr, esc, depthCurly, depthSq := false, false, 0, 0;
    for i := 0 to |head|
      invariant LexAt(head, i) == Lex(inStr, esc)
      invariant depthCurly == Curly(Brackets(head, i)) && depthSq == Square(Brackets(head, i))
    {
      var ch := head[i];
      CountsAt(head, i);
      if esc { esc := false; continue; }
      if ch == '\\' { esc := true; continue; }
      if ch == '"' { inStr := !inStr; continue; }
      if inStr { continue; }
      if ch == '{' { depthCurly := depthCurly + 1; }
      else if ch == '}' { depthCurly := depthCurly - 1; }
      else if ch == '[' { depthSq := depthSq + 1; }
      else if ch == ']' { depthSq := depthSq - 1; }
    }
    repaired := head;
    var k := 0;
    while k < depthSq
      invariant 0 <= k <= Plus(depthSq) && repaired == head + Repeat(']', k)
    {
      repaired := repaired + "]";
      k := k + 1;
    }
    var squared := repaired;
    var c := 0;
    while c < depthCurly
      invariant 0 <= c <= Plus(depthCurly) && repaired == squared + Repeat('}', c)
    {
      repaired := repaired + "}";
      c := c + 1;
    }
  }

  /** The third scan: the last comma of the outermost level. */
  method FindLastComma(body: string) returns (lastComma: int)
    ensures lastComma == LastComma(body, |body|)
  {
    var inStr, esc, depth := false, false, 0;
    lastComma := -1;
    for i := 0 to |body|
      invariant LexAt(body, i) == Lex(inStr, esc)
      invariant depth == Curly(Brackets(body, i)) + Square(Brackets(body, i))
      invariant lastComma == LastComma(body, i)
    {
      var ch := body[i];
      CountsAt(body, i);
      if esc { esc := false; continue; }
      if ch == '\\' { esc := true; continue; }
      if ch == '"' { inStr := !inStr; continue; }
      if inStr { continue; }
      if ch == '{' || ch == '[' { depth := depth + 1; }
      else if ch == '}' || ch == ']' { depth := depth - 1; }
      else if ch == ',' && depth == 1 { lastComma := i; }
    }
  }

  method FirstCandidate(body: string) returns (first: Option<string>)
    ensures first == First(body)
  {
    var lastGood := FindLastGood(body);
    if lastGood < 0 { return None; }
    HeadIsClean(body, lastGood + 1);
    var repaired := CloseHead(body[..lastGood + 1]);
    first := Some(repaired);
  }

  /** The texts that are tried, in this order. */
  method Candidates(body: string) returns (first: Option<string>, second: Option<string>)
    ensures first == First(body) && second == Second(body)
  {
    first := FirstCandidate(body);
    var lastComma := FindLastComma(body);
    second := if lastComma > 0 then Some(body[..lastComma] + [if body[0] == '[' then ']' else '}']) else None;
  }
}
