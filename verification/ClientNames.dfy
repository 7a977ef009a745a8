/**
 Client identities: the normalised form of a client name, the code that names an
 engagement, and the parsed form of a workspace key.
 */
module ClientNames {
  import opened Options

  const NORM_MAX := 100
  const LEGACY_NORM_MAX := 30

  predicate IsNormChar(c: char) {
    'a' <= c <= 'z' || '0' <= c <= '9'
  }

  predicate IsNorm(s: string) {
    |s| <= NORM_MAX && forall i | 0 <= i < |s| :: IsNormChar(s[i])
  }

  function ToLower(c: char): char {
    if 'A' <= c <= 'Z' then c - 'A' + 'a' else c
  }

  /** Lower-case `name` and drop every character that is not a letter or a digit. */
  function Strip(name: string): (s: string)
    ensures |s| <= |name|
    ensures forall i | 0 <= i < |s| :: IsNormChar(s[i])
  {
    if name == "" then ""
    else
      var c := ToLower(name[0]);
      (if IsNormChar(c) then [c] else []) + Strip(name[1..])
  }

  function Take(s: string, n: nat): string {
    if |s| <= n then s else s[..n]
  }

  function Norm(name: string): (n: string)
    ensures IsNorm(n)
  {
    Take(Strip(name), NORM_MAX)
  }

  function LegacyNorm(name: string): (n: string)
    ensures IsNorm(n)
    ensures n <= Norm(name)
  {
    Take(Strip(name), LEGACY_NORM_MAX)
  }

  /** A norm is its own norm, so a norm and a name can be compared by normalising both. */
  lemma {:induction false} NormFixed(n: string)
    requires IsNorm(n)
    ensures Norm(n) == n
  {
    StripFixed(n);
  }

  lemma {:induction false} StripFixed(s: string)
    requires forall i | 0 <= i < |s| :: IsNormChar(s[i])
    ensures Strip(s) == s
  {
    if s != "" {
      StripFixed(s[1..]);
      assert s == [s[0]] + s[1..];
    }
  }

  const LOWERS := "abcdefghijklmnopqrstuvwxyz"
  const UPPERS := "ABCDEFGHIJKLMNOPQRSTUVWXYZ"
  const DIGITS := "0123456789"

  lemma StripOne(c: char)
    ensures Strip([c]) == if IsNormChar(ToLower(c)) then [ToLower(c)] else ""
  {
    assert [c][1..] == "" && Strip("") == "";
  }

  lemma LettersInOrder()
    ensures forall i | 0 <= i < 26 :: LOWERS[i] == 'a' + i as char && UPPERS[i] == 'A' + i as char
    ensures forall i | 0 <= i < 10 :: DIGITS[i] == '0' + i as char
  {
  }

  /** Of a single character a name keeps a letter, in lower case, or a digit, and nothing else. */
  lemma LetterByLetter(c: char)
    ensures forall i | 0 <= i < 26 :: (c == LOWERS[i] || c == UPPERS[i] ==> Strip([c]) == [LOWERS[i]])
    ensures c in DIGITS ==> Strip([c]) == [c]
    ensures c !in LOWERS && c !in UPPERS && c !in DIGITS ==> Strip([c]) == ""
  {
    StripOne(c);
    LettersInOrder();
    if 'a' <= c <= 'z' { assert c == LOWERS[(c - 'a') as int]; }
    if 'A' <= c <= 'Z' { assert c == UPPERS[(c - 'A') as int]; }
    if '0' <= c <= '9' { assert c == DIGITS[(c - '0') as int]; }
  }

  /** And a name is taken character by character. */
  lemma {:induction false} NameIsItsLetters(a: string, b: string)
    ensures Strip(a + b) == Strip(a) + Strip(b)
  {
    if a == "" {
      assert a + b == b;
    } else {
      assert (a + b)[0] == a[0] && (a + b)[1..] == a[1..] + b;
      NameIsItsLetters(a[1..], b);
    }
  }

  function ToUpper(c: char): char {
    if 'a' <= c <= 'z' then c - 'a' + 'A' else c
  }

  function Upper(s: string): (u: string)
    ensures |u| == |s|
  {
    seq(|s|, i requires 0 <= i < |s| => ToUpper(s[i]))
  }

  /** The texts that are a norm in upper case: a code written like this can be taken for a client. */
  predicate ReadsAsNorm(c: string) {
    |c| <= NORM_MAX && forall i | 0 <= i < |c| :: 'A' <= c[i] <= 'Z' || '0' <= c[i] <= '9'
  }

  lemma UpperOfNorm(n: string)
    requires IsNorm(n)
    ensures ReadsAsNorm(Upper(n))
  {
  }

  /**
   The first segment of a family key: a norm, or any other text, which is then read as a code. The segment of an
   engagement record is always read as a code.
   */
  datatype Ident = NormId(norm: string) | CodeId(code: string)

  function IdText(id: Ident): string {
    match id
    case NormId(n) => n
    case CodeId(c) => c
  }

  /** The code a segment is looked up under, before it is taken for a norm. */
  function CodeText(id: Ident): string {
    match id
    case NormId(n) => Upper(n)
    case CodeId(c) => c
  }

  /**
   The suffix of a family key: an identity on its own, 'eng_<identity>',
   'client_<norm>', or one of the suffixes nobody owns.
   */
  datatype Segment = Plain(id: Ident) | Eng(id: Ident) | ClientSeg(norm: string) | Unassigned

  datatype Family = NormKeyed(name: string) | Engagement | CodeKeyed(name: string)

  datatype Key =
    | FamilyKey(family: Family, seg: Segment, rest: string)
    | Session(id: string)
    | LastBriefing
    | Snapshots
    | GlobalKey(name: string)
    | OwnerKey(name: string)
    | MiscKey(name: string)

  /** The key under which the record of engagement `c` is stored. */
  function RecordKey(c: string): Key {
    FamilyKey(Engagement, Plain(CodeId(c)), "")
  }

  datatype Field = Text(s: string) | Opaque(raw: string)

  type Fields = map<string, Field>

  /** A stored value: a JSON object, a JSON array of objects, or anything else. */
  datatype Value = Doc(fields: Fields) | Records(recs: seq<Fields>) | Raw(text: string)

  /** The text of a field that is a non-empty string. */
  function TextOf(fields: Fields, name: string): Option<string> {
    if name in fields && fields[name].Text? && fields[name].s != "" then Some(fields[name].s) else None
  }

  /** The norm of the name in `client`, when the value carries one. */
  function ClientNorm(v: Value): Option<string> {
    if v.Doc? && TextOf(v.fields, "client").Some? then Some(Norm(TextOf(v.fields, "client").value)) else None
  }

  datatype Entry = Entry(norm: string, code: string)

  datatype Meta = Meta(clientName: Option<string>, rest: string)

  datatype RoadmapFamily = Assumptions | Dependencies | Generated | ByEng

  datatype EngKey = EngCode(code: string) | EngClient(norm: string) | EngOther(raw: string)

  datatype Roadmap = Roadmap(fams: map<RoadmapFamily, map<EngKey, string>>, savedAt: Option<string>, flat: map<string, string>)

  /**
   The shared workspace: four structured keys, each absent or parsed, and every other key.
   The engagement index keeps the order of its entries, because the last entry for a code wins.
   */
  datatype Workspace = Workspace(
    index: Option<seq<Entry>>,
    codeIndex: Option<map<string, string>>,
    roadmapIndex: Option<map<string, Meta>>,
    roadmap: Option<Roadmap>,
    keys: map<Key, Value>)
}
