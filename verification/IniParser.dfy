/**
 The INI parser of `lib/ff_ini_parser.c`, with the options F-Stack compiles in: continuation lines, a
 leading byte order mark, inline comments after white space, and a stop at the first error.

 A line is what the reader put in the buffer, without the terminating zero.  A handler may answer
 depending on all calls made so far.
 */
module IniParser {

  const MAX_SECTION := 50
  const MAX_NAME := 50
  const INI_MAX_LINE := 2048

  datatype Call = Call(section: string, name: string, value: string)

  type Handler = seq<Call> -> bool

  // ---- the string helpers

  predicate IsSpace(c: char) { c == ' ' || ('\t' <= c <= '\r') }

  /** A string without the white space at its end. */
  function RStripped(s: string): string {
    if s == "" || !IsSpace(s[|s| - 1]) then s else RStripped(s[..|s| - 1])
  }

  /** How much white space a string begins with. */
  function Blanks(s: string): (k: nat)
    ensures k <= |s|
  {
    if s == "" || !IsSpace(s[0]) then 0 else Blanks(s[1..]) + 1
  }

  /** One of the characters sought, or a semicolon right after white space. */
  predicate Stops(s: string, chars: set<char>, i: nat)
    requires i < |s|
  {
    s[i] in chars || (i > 0 && IsSpace(s[i - 1]) && s[i] == ';')
  }

  /** The first such place from i on, or the end. */
  function Find(s: string, chars: set<char>, i: nat): (k: nat)
    requires i <= |s|
    ensures i <= k <= |s|
    decreases |s| - i
  {
    if i == |s| || Stops(s, chars, i) then i else Find(s, chars, i + 1)
  }

  /** `strncpy0`: what fits, leaving room for the terminating zero. */
  function Truncated(s: string, size: nat): string
    requires size > 0
  {
    if |s| < size then s else s[..size - 1]
  }

  lemma {:induction false} RStrippedIs(s: string, k: nat)
    requires k <= |s| && (k > 0 ==> !IsSpace(s[k - 1])) && forall i :: k <= i < |s| ==> IsSpace(s[i])
    ensures RStripped(s) == s[..k]
    decreases |s|
  {
    if k < |s| {
      RStrippedIs(s[..|s| - 1], k);
      assert s[..|s| - 1][..k] == s[..k];
    } else {
      assert s[..k] == s;
    }
  }

  lemma {:induction false} BlanksIs(s: string, k: nat)
    requires k <= |s| && (forall i :: 0 <= i < k ==> IsSpace(s[i])) && (k < |s| ==> !IsSpace(s[k]))
    ensures Blanks(s) == k
  {
    if k > 0 {
      BlanksIs(s[1..], k - 1);
    }
  }

  lemma {:induction false} FindIs(s: string, chars: set<char>, i: nat, k: nat)
    requires i <= k <= |s| && (forall j :: i <= j < k ==> !Stops(s, chars, j)) && (k < |s| ==> Stops(s, chars, k))
    ensures Find(s, chars, i) == k
    decreases k - i
  {
    if i < k {
      FindIs(s, chars, i + 1, k);
    }
  }

  /** `rstrip`. */
  method RStrip(s: string) returns (r: string)
    ensures r == RStripped(s)
  {
    var p := |s|;
    while p > 0 && IsSpace(s[p - 1])
      invariant 0 <= p <= |s| && forall i :: p <= i < |s| ==> IsSpace(s[i])
    {
      p := p - 1;
    }
    RStrippedIs(s, p);
    r := s[..p];
  }

  /** `lskip`. */
  method LSkip(s: string) returns (k: nat)
    ensures k == Blanks(s)
  {
    k := 0;
    while k < |s| && IsSpace(s[k])
      invariant 0 <= k <= |s| && forall i :: 0 <= i < k ==> IsSpace(s[i])
    {
      k := k + 1;
    }
    BlanksIs(s, k);
  }

  /** `find_chars_or_comment`. */
  method FindCharsOrComment(s: string, chars: set<char>) returns (k: nat)
    ensures k == Find(s, chars, 0)
  {
    k := 0;
    var wasSpace := false;
    while k < |s| && s[k] !in chars && !(wasSpace && s[k] == ';')
      invariant 0 <= k <= |s| && wasSpace == (k > 0 && IsSpace(s[k - 1]))
      invariant forall j :: 0 <= j < k ==> !Stops(s, chars, j)
    {
      wasSpace := IsSpace(s[k]);
      k := k + 1;
    }
    FindIs(s, chars, 0, k);
  }

  // ---- one line

  /** What a line turns out to be. */
  datatype Parsed =
    | Nothing
    | Section(section: string)
    | Pair(name: string, value: string)
    | More(value: string)
    | Malformed

  predicate HasBom(line: string) {
    |line| >= 3 && line[0] as int == 0xEF && line[1] as int == 0xBB && line[2] as int == 0xBF
  }

  /** Where the text of a line begins. */
  function Skipped(line: string, first: bool): nat
    ensures Skipped(line, first) <= |line|
  {
    if first && HasBom(line) then 3 else 0
  }

  /** `first` is whether this is the first line, `named` whether there is a name that could be continued. */
  function ParseLine(line: string, first: bool, named: bool): Parsed {
    var b := Skipped(line, first);
    var s := RStripped(line[b..]);
    var k := Blanks(s);
    ParseText(s[k..], named && b + k > 0)
  }

  function ParseText(text: string, continues: bool): Parsed {
    if text == "" || text[0] == ';' || text[0] == '#' then Nothing
    else if continues then More(text)
    else if text[0] == '[' then ParseSection(text[1..])
    else ParsePair(text)
  }

  function ParseSection(text: string): Parsed {
    var e := Find(text, {']'}, 0);
    if e < |text| && text[e] == ']' then Section(text[..e]) else Malformed
  }

  function ParsePair(text: string): Parsed {
    var e := Find(text, {'=', ':'}, 0);
    if e < |text| && text[e] in {'=', ':'} then Pair(RStripped(text[..e]), ValueOf(text[e + 1..]))
    else Malformed
  }

  /** A value: up to an inline comment, and without the white space around it. */
  function ValueOf(s: string): string {
    var t := s[..Find(s, {}, 0)];
    RStripped(t[Blanks(t)..])
  }

  // ---- what a line means

  /** An inline comment begins at d. */
  predicate Comment(s: string, d: int) { 0 < d < |s| && IsSpace(s[d - 1]) && s[d] == ';' }

  ghost predicate NoComment(s: string, n: nat) { forall d :: 0 < d < n ==> !Comment(s, d) }

  /** Place e lies in an inline comment. */
  ghost predicate Behind(s: string, e: nat) { exists d :: 0 < d < e && Comment(s, d) }

  /** From b on there is white space, the text from i to j, and white space. */
  ghost predicate TextAt(line: string, b: nat, i: nat, j: nat) {
    && b <= i <= j <= |line| && (i == j ==> i == b)
    && (forall k :: b <= k < i || j <= k < |line| ==> IsSpace(line[k]))
    && (i < j ==> !IsSpace(line[i]) && !IsSpace(line[j - 1]))
  }

  /** The first of the characters sought is at e, and not in a comment. */
  ghost predicate FirstAt(s: string, chars: set<char>, e: nat) {
    e < |s| && s[e] in chars && (forall d :: 0 <= d < e ==> s[d] !in chars) && NoComment(s, e)
  }

  /** Wherever one of the characters sought stands, it is in a comment. */
  ghost predicate Missing(s: string, chars: set<char>) {
    forall e :: 0 <= e < |s| && s[e] in chars ==> Behind(s, e)
  }

  ghost predicate SectionMeans(s: string, p: Parsed) {
    match p
    case Section(name) => FirstAt(s, {']'}, |name|) && name == s[..|name|]
    case Malformed => Missing(s, {']'})
    case _ => false
  }

  /** A name is s without the white space at its end. */
  ghost predicate NameMeans(s: string, name: string) {
    && name <= s && (forall k :: |name| <= k < |s| ==> IsSpace(s[k]))
    && (name != "" ==> !IsSpace(name[|name| - 1]))
  }

  /** A value is what stands before the first comment, without the white space around it. */
  ghost predicate ValueMeans(s: string, value: string) {
    exists c: nat, i: nat, j: nat :: c <= |s| && NoComment(s, c) && (c < |s| ==> Comment(s, c)) &&
                                     TextAt(s[..c], 0, i, j) && value == s[i..j]
  }

  ghost predicate PairMeans(s: string, p: Parsed) {
    match p
    case Pair(name, value) =>
      exists e: nat :: FirstAt(s, {'=', ':'}, e) && NameMeans(s[..e], name) && ValueMeans(s[e + 1..], value)
    case Malformed => Missing(s, {'=', ':'})
    case _ => false
  }

  /** A comment, a continuation of the value before, a section header, or a pair. */
  ghost predicate TextMeans(text: string, continues: bool, p: Parsed) {
    if text == "" || text[0] in {';', '#'} then p == Nothing
    else if continues then p == More(text)
    else if text[0] == '[' then SectionMeans(text[1..], p)
    else PairMeans(text, p)
  }

  ghost predicate Means(line: string, first: bool, named: bool, p: Parsed) {
    exists i: nat, j: nat :: TextAt(line, BomLength(line, first), i, j) && TextMeans(line[i..j], named && i > 0, p)
  }

  /** The bytes EF BB BF at the beginning of the first line are not part of its text. */
  ghost function BomLength(line: string, first: bool): nat {
    if first && |line| >= 3 && line[..3] == [0xEF as char, 0xBB as char, 0xBF as char] then 3 else 0
  }

  lemma {:induction false} RStrippedHas(s: string)
    ensures NameMeans(s, RStripped(s))
  {
    if s != "" && IsSpace(s[|s| - 1]) {
      RStrippedHas(s[..|s| - 1]);
    }
  }

  lemma {:induction false} BlanksHas(s: string)
    ensures (forall k :: 0 <= k < Blanks(s) ==> IsSpace(s[k])) && (Blanks(s) < |s| ==> !IsSpace(s[Blanks(s)]))
  {
    if s != "" && IsSpace(s[0]) {
      BlanksHas(s[1..]);
    }
  }

  lemma {:induction false} FindHas(s: string, chars: set<char>, i: nat)
    requires i <= |s|
    ensures forall j :: i <= j < Find(s, chars, i) ==> !Stops(s, chars, j)
    ensures Find(s, chars, i) < |s| ==> Stops(s, chars, Find(s, chars, i))
    decreases |s| - i
  {
    if i < |s| && !Stops(s, chars, i) {
      FindHas(s, chars, i + 1);
    }
  }

  /** The search finds the first character sought unless a comment comes before it. */
  lemma FindMeans(s: string, chars: set<char>)
    requires ';' !in chars
    ensures var e := Find(s, chars, 0);
            && NoComment(s, e) && (e < |s| && s[e] !in chars ==> Comment(s, e))
            && if e < |s| && s[e] in chars then FirstAt(s, chars, e) else Missing(s, chars)
  {
    FindHas(s, chars, 0);
    var e := Find(s, chars, 0);
    forall d | 0 <= d < e ensures !Comment(s, d) && s[d] !in chars {
      assert !Stops(s, chars, d);
    }
    if e == |s| || s[e] !in chars {
      forall k | 0 <= k < |s| && s[k] in chars ensures Behind(s, k) {
        assert e < k && Comment(s, e);
      }
    }
  }

  lemma LineText(line: string, b: nat) returns (i: nat, j: nat)
    requires b <= |line|
    ensures var s := RStripped(line[b..]);
            TextAt(line, b, i, j) && i == b + Blanks(s) && line[i..j] == s[Blanks(s)..]
  {
    var s := RStripped(line[b..]);
    RStrippedHas(line[b..]);
    BlanksHas(s);
    i, j := b + Blanks(s), b + |s|;
    assert s == line[b..j];
    assert forall k :: 0 <= k < |s| ==> s[k] == line[b + k];
    forall k | b <= k < i || j <= k < |line| ensures IsSpace(line[k]) {
      assert line[b..][k - b] == line[k];
    }
  }

  lemma ValueText(s: string)
    ensures ValueMeans(s, ValueOf(s))
  {
    FindMeans(s, {});
    var c := Find(s, {}, 0);
    var t := s[..c];
    var k := Blanks(t);
    BlanksHas(t);
    RStrippedHas(t[k..]);
    var r := RStripped(t[k..]);
    assert k < |t| ==> t[k..][0] == t[k];
    if r == "" {
      assert k == |t|;
      assert TextAt(s[..c], 0, 0, 0) && r == s[0..0];
    } else {
      var j := k + |r|;
      forall d | j <= d < |t| ensures IsSpace(t[d]) {
        assert t[k..][d - k] == t[d];
      }
      assert t[k..][0] == t[k] && t[k..][|r| - 1] == t[j - 1];
      assert TextAt(s[..c], 0, k, j) && r == s[k..j];
    }
  }

  lemma TextParses(text: string, continues: bool)
    ensures TextMeans(text, continues, ParseText(text, continues))
  {
    if text != "" && text[0] == '[' {
      FindMeans(text[1..], {']'});
    } else {
      PairText(text);
    }
  }

  lemma PairIs(s: string, e: nat, name: string, value: string)
    requires FirstAt(s, {'=', ':'}, e) && NameMeans(s[..e], name) && ValueMeans(s[e + 1..], value)
    ensures PairMeans(s, Pair(name, value))
  {
  }

  lemma PairText(s: string)
    ensures PairMeans(s, ParsePair(s))
  {
    var chars := {'=', ':'};
    FindMeans(s, chars);
    var e := Find(s, chars, 0);
    if e < |s| && s[e] in chars {
      var name, value := RStripped(s[..e]), ValueOf(s[e + 1..]);
      assert ParsePair(s) == Pair(name, value);
      RStrippedHas(s[..e]);
      ValueText(s[e + 1..]);
      PairIs(s, e, name, value);
    }
  }

  lemma ParseMeans(line: string, first: bool, named: bool)
    ensures Means(line, first, named, ParseLine(line, first, named))
  {
    assert BomLength(line, first) == Skipped(line, first);
    var i, j := LineText(line, Skipped(line, first));
    TextParses(line[i..j], named && i > 0);
  }

  lemma TextUnique(line: string, b: nat, i: nat, j: nat, i': nat, j': nat)
    requires TextAt(line, b, i, j) && TextAt(line, b, i', j')
    ensures i == i' && j == j'
  {
  }

  lemma FirstUnique(s: string, chars: set<char>, e: nat)
    requires FirstAt(s, chars, e)
    ensures !Missing(s, chars) && forall e': nat :: FirstAt(s, chars, e') ==> e' == e
  {
  }

  lemma NameUnique(s: string, name: string, name': string)
    requires NameMeans(s, name) && NameMeans(s, name')
    ensures name == name'
  {
    assert name == s[..|name|] && name' == s[..|name'|];
  }

  lemma ValueUnique(s: string, value: string, value': string)
    requires ValueMeans(s, value) && ValueMeans(s, value')
    ensures value == value'
  {
    var c: nat, i: nat, j: nat :| c <= |s| && NoComment(s, c) && (c < |s| ==> Comment(s, c)) &&
                                  TextAt(s[..c], 0, i, j) && value == s[i..j];
    var c': nat, i': nat, j': nat :| c' <= |s| && NoComment(s, c') && (c' < |s| ==> Comment(s, c')) &&
                                     TextAt(s[..c'], 0, i', j') && value' == s[i'..j'];
    assert c == c';
    TextUnique(s[..c], 0, i, j, i', j');
  }

  lemma PairUnique(s: string, p: Parsed, p': Parsed)
    requires PairMeans(s, p) && PairMeans(s, p')
    ensures p == p'
  {
    if p.Pair? || p'.Pair? {
      var e: nat :| FirstAt(s, {'=', ':'}, e);
      FirstUnique(s, {'=', ':'}, e);
      NameUnique(s[..e], p.name, p'.name);
      ValueUnique(s[e + 1..], p.value, p'.value);
    }
  }

  lemma SectionUnique(s: string, p: Parsed, p': Parsed)
    requires SectionMeans(s, p) && SectionMeans(s, p')
    ensures p == p'
  {
    if p.Section? {
      FirstUnique(s, {']'}, |p.section|);
    } else if p'.Section? {
      FirstUnique(s, {']'}, |p'.section|);
    }
  }

  /** The parser takes a line for what it means, and for nothing else. */
  lemma LineMeans(line: string, first: bool, named: bool, p: Parsed)
    ensures ParseLine(line, first, named) == p <==> Means(line, first, named, p)
    ensures forall c :: IsSpace(c) <==> c as int in {9, 10, 11, 12, 13, 32}
  {
    ParseMeans(line, first, named);
    if Means(line, first, named, p) {
      var q := ParseLine(line, first, named);
      var b := BomLength(line, first);
      var i: nat, j: nat :| TextAt(line, b, i, j) && TextMeans(line[i..j], named && i > 0, p);
      var i': nat, j': nat :| TextAt(line, b, i', j') && TextMeans(line[i'..j'], named && i' > 0, q);
      TextUnique(line, b, i, j, i', j');
      MeansOnce(line[i..j], named && i > 0, p, q);
    }
  }

  lemma MeansOnce(text: string, continues: bool, p: Parsed, q: Parsed)
    requires TextMeans(text, continues, p) && TextMeans(text, continues, q)
    ensures p == q
  {
    if text != "" && text[0] !in {';', '#'} && !continues {
      if text[0] == '[' {
        SectionUnique(text[1..], p, q);
      } else {
        PairUnique(text, p, q);
      }
    }
  }

  /** What the parser remembers between lines. */
  datatype State = State(section: string, prevName: string)

  function Next(st: State, p: Parsed): State {
    match p
    case Section(section) => State(Truncated(section, MAX_SECTION), "")
    case Pair(name, _) => st.(prevName := Truncated(name, MAX_NAME))
    case _ => st
  }

  function CallsOf(st: State, p: Parsed): seq<Call> {
    match p
    case Pair(name, value) => [Call(st.section, name, value)]
    case More(value) => [Call(st.section, st.prevName, value)]
    case _ => []
  }

  // ---- all lines

  /** How lines are recognised; the parser is the case `ParseLine`. */
  type Parser = (string, bool, bool) -> Parsed

  function StateAt(parse: Parser, lines: seq<string>, k: nat): State
    requires k <= |lines|
    decreases k, 0
  {
    if k == 0 then State("", "") else Next(StateAt(parse, lines, k - 1), ParsedAt(parse, lines, k - 1))
  }

  function ParsedAt(parse: Parser, lines: seq<string>, k: nat): Parsed
    requires k < |lines|
    decreases k, 1
  {
    parse(lines[k], k == 0, StateAt(parse, lines, k).prevName != "")
  }

  /** The handler calls the first k lines ask for. */
  function AllCalls(parse: Parser, lines: seq<string>, k: nat): seq<Call>
    requires k <= |lines|
  {
    if k == 0 then []
    else AllCalls(parse, lines, k - 1) + CallsOf(StateAt(parse, lines, k - 1), ParsedAt(parse, lines, k - 1))
  }

  /** Line k cannot be parsed, or its handler call fails. */
  predicate BadLine(parse: Parser, lines: seq<string>, handler: Handler, k: nat)
    requires k < |lines|
  {
    || ParsedAt(parse, lines, k).Malformed?
    || (CallsOf(StateAt(parse, lines, k), ParsedAt(parse, lines, k)) != [] && !handler(AllCalls(parse, lines, k + 1)))
  }

  ghost predicate GoodUpTo(parse: Parser, lines: seq<string>, handler: Handler, n: nat)
    requires n <= |lines|
  {
    forall k {:trigger BadLine(parse, lines, handler, k)} :: 0 <= k < n ==> !BadLine(parse, lines, handler, k)
  }

  lemma OneMoreGood(parse: Parser, lines: seq<string>, handler: Handler, n: nat)
    requires 0 < n <= |lines| && GoodUpTo(parse, lines, handler, n - 1) && !BadLine(parse, lines, handler, n - 1)
    ensures GoodUpTo(parse, lines, handler, n)
  {
  }

  // ---- what the lines mean together

  /** Line j is the last header or pair before line k. */
  ghost predicate Governs(ps: seq<Parsed>, j: int, k: int) {
    && 0 <= j < k <= |ps| && (ps[j].Section? || ps[j].Pair?)
    && forall i :: j < i < k ==> !ps[i].Section? && !ps[i].Pair?
  }

  /** Line j is the last header before line k. */
  ghost predicate Heads(ps: seq<Parsed>, j: int, k: int) {
    0 <= j < k <= |ps| && ps[j].Section? && forall i :: j < i < k ==> !ps[i].Section?
  }

  /** A name or section fits in its buffer of 50 with the terminating zero. */
  ghost predicate CutTo49(s: string, t: string) { if |s| <= 49 then t == s else t == s[..49] }

  /** The section in force at line k: that of the last header before it. */
  ghost predicate InForce(ps: seq<Parsed>, k: int, section: string) {
    || (exists j {:trigger Heads(ps, j, k)} :: Heads(ps, j, k) && CutTo49(ps[j].section, section))
    || (section == "" && forall j {:trigger Heads(ps, j, k)} :: !Heads(ps, j, k))
  }

  /** The name a continuation at line k would belong to: that of the pair before it, in the same section. */
  ghost predicate Continues(ps: seq<Parsed>, k: int, name: string) {
    exists j {:trigger Governs(ps, j, k)} :: Governs(ps, j, k) && ps[j].Pair? && CutTo49(ps[j].name, name)
  }

  /** There is a name to continue at line k. */
  ghost predicate Named(ps: seq<Parsed>, k: int) {
    exists j {:trigger Governs(ps, j, k)} :: Governs(ps, j, k) && ps[j].Pair? && ps[j].name != ""
  }

  /** What a line may be taken for; the meaning of INI lines is the case `Means`. */
  type Meaning = (string, bool, bool, Parsed) -> bool

  /** Each line is what it means where it stands. */
  ghost predicate Understood(means: Meaning, lines: seq<string>, ps: seq<Parsed>) {
    |ps| <= |lines| && forall k {:trigger LineIs(means, lines, ps, k)} :: 0 <= k < |ps| ==> LineIs(means, lines, ps, k)
  }

  ghost predicate LineIs(means: Meaning, lines: seq<string>, ps: seq<Parsed>, k: nat)
    requires k < |ps| <= |lines|
  {
    means(lines[k], k == 0, Named(ps, k), ps[k])
  }

  /** The parser takes lines for what they mean, and for continuations only if there is a name to continue. */
  ghost predicate Follows(parse: Parser, means: Meaning) {
    forall l, first, named ::
      means(l, first, named, parse(l, first, named)) && (parse(l, first, named).More? ==> named)
  }

  lemma ParseLineFollows()
    ensures Follows(ParseLine, Means)
  {
    forall l, first, named
      ensures Means(l, first, named, ParseLine(l, first, named)) && (ParseLine(l, first, named).More? ==> named)
    {
      ParseMeans(l, first, named);
    }
  }

  /** The handler call of line k. */
  ghost predicate CallAt(ps: seq<Parsed>, k: nat, c: Call) {
    && k < |ps| && InForce(ps, k, c.section)
    && match ps[k]
       case Pair(name, value) => c.name == name && c.value == value
       case More(text) => Continues(ps, k, c.name) && c.value == text
       case _ => false
  }

  /** One call for each pair and each continuation, in order; call i is that of line at[i]. */
  ghost predicate CallsAt(ps: seq<Parsed>, at: seq<nat>, calls: seq<Call>) {
    && |at| == |calls| && (forall i, j :: 0 <= i < j < |at| ==> at[i] < at[j])
    && (forall i :: 0 <= i < |at| ==> CallAt(ps, at[i], calls[i]))
    && forall k {:trigger Calling(ps, k)} :: Calling(ps, k) ==> k in at
  }

  predicate Calling(ps: seq<Parsed>, k: int) { 0 <= k < |ps| && (ps[k].Pair? || ps[k].More?) }

  /** What the parser remembers is what the lines before say. */
  ghost predicate Remembers(ps: seq<Parsed>, k: int, st: State) {
    && InForce(ps, k, st.section)
    && (Continues(ps, k, st.prevName) || (st.prevName == "" && NothingToContinue(ps, k)))
  }

  ghost predicate NothingToContinue(ps: seq<Parsed>, k: int) {
    forall j {:trigger Governs(ps, j, k)} :: Governs(ps, j, k) ==> ps[j].Section?
  }

  lemma GovernsNext(ps: seq<Parsed>, p: Parsed, j: int)
    ensures Governs(ps + [p], j, |ps| + 1) <==> if p.Section? || p.Pair? then j == |ps| else Governs(ps, j, |ps|)
    ensures Heads(ps + [p], j, |ps| + 1) <==> if p.Section? then j == |ps| else Heads(ps, j, |ps|)
  {
    var ps' := ps + [p];
    assert ps'[|ps|] == p && forall i :: 0 <= i < |ps| ==> ps'[i] == ps[i];
  }

  lemma SameBefore(ps: seq<Parsed>, p: Parsed, k: int, j: int)
    requires k <= |ps|
    ensures Governs(ps + [p], j, k) <==> Governs(ps, j, k)
    ensures Heads(ps + [p], j, k) <==> Heads(ps, j, k)
  {
    var ps' := ps + [p];
    assert forall i :: 0 <= i < |ps| ==> ps'[i] == ps[i];
  }

  lemma InForceNext(ps: seq<Parsed>, p: Parsed, st: State)
    requires InForce(ps, |ps|, st.section)
    ensures InForce(ps + [p], |ps| + 1, Next(st, p).section)
  {
    var ps' := ps + [p];
    forall j ensures Heads(ps', j, |ps'|) <==> if p.Section? then j == |ps| else Heads(ps, j, |ps|) {
      GovernsNext(ps, p, j);
    }
    if p.Section? {
      assert Heads(ps', |ps|, |ps'|);
    } else if j :| Heads(ps, j, |ps|) && CutTo49(ps[j].section, st.section) {
      assert Heads(ps', j, |ps'|) && ps'[j] == ps[j];
    }
  }

  lemma RemembersNext(ps: seq<Parsed>, p: Parsed, st: State)
    requires Remembers(ps, |ps|, st)
    ensures Remembers(ps + [p], |ps| + 1, Next(st, p))
  {
    InForceNext(ps, p, st);
    var ps' := ps + [p];
    forall j ensures Governs(ps', j, |ps'|) <==> if p.Section? || p.Pair? then j == |ps| else Governs(ps, j, |ps|) {
      GovernsNext(ps, p, j);
    }
    if p.Section? || p.Pair? {
      assert Governs(ps', |ps|, |ps'|) && ps'[|ps|] == p;
    } else if j :| Governs(ps, j, |ps|) && ps[j].Pair? && CutTo49(ps[j].name, st.prevName) {
      assert Governs(ps', j, |ps'|) && ps'[j] == ps[j];
    }
  }

  lemma GovernsOnce(ps: seq<Parsed>, i: int, j: int, k: int)
    requires Governs(ps, i, k) && Governs(ps, j, k)
    ensures i == j
  {
  }

  lemma NamedIs(ps: seq<Parsed>, st: State)
    requires Remembers(ps, |ps|, st)
    ensures Named(ps, |ps|) <==> st.prevName != ""
  {
    if Continues(ps, |ps|, st.prevName) {
      var j :| Governs(ps, j, |ps|) && ps[j].Pair? && CutTo49(ps[j].name, st.prevName);
      forall i | Governs(ps, i, |ps|) ensures i == j {
        GovernsOnce(ps, i, j, |ps|);
      }
    }
  }

  lemma CallKept(ps: seq<Parsed>, p: Parsed, k: nat, c: Call)
    requires CallAt(ps, k, c)
    ensures CallAt(ps + [p], k, c)
  {
    var ps' := ps + [p];
    forall j ensures (Heads(ps', j, k) <==> Heads(ps, j, k)) && (Governs(ps', j, k) <==> Governs(ps, j, k)) {
      SameBefore(ps, p, k, j);
    }
    InForceKept(ps, ps', k, c.section);
    if ps[k].More? {
      var j :| Governs(ps, j, k) && ps[j].Pair? && CutTo49(ps[j].name, c.name);
      assert Governs(ps', j, k) && ps'[j] == ps[j];
    }
    assert ps'[k] == ps[k];
  }

  lemma InForceKept(ps: seq<Parsed>, ps': seq<Parsed>, k: int, section: string)
    requires InForce(ps, k, section) && ps <= ps' && forall j :: Heads(ps', j, k) <==> Heads(ps, j, k)
    ensures InForce(ps', k, section)
  {
    if j :| Heads(ps, j, k) && CutTo49(ps[j].section, section) {
      assert Heads(ps', j, k) && ps'[j] == ps[j];
    }
  }

  lemma NewCall(ps: seq<Parsed>, p: Parsed, st: State, c: Call)
    requires Remembers(ps, |ps|, st) && CallsOf(st, p) == [c] && (p.More? ==> st.prevName != "")
    ensures CallAt(ps + [p], |ps|, c)
  {
    var ps' := ps + [p];
    forall j
      ensures (Heads(ps', j, |ps|) <==> Heads(ps, j, |ps|)) && (Governs(ps', j, |ps|) <==> Governs(ps, j, |ps|))
    {
      SameBefore(ps, p, |ps|, j);
    }
    InForceKept(ps, ps', |ps|, c.section);
    if p.More? {
      var j :| Governs(ps, j, |ps|) && ps[j].Pair? && CutTo49(ps[j].name, c.name);
      assert Governs(ps', j, |ps|) && ps'[j] == ps[j];
    }
    assert ps'[|ps|] == p;
  }

  lemma CallsNext(ps: seq<Parsed>, p: Parsed, st: State, at: seq<nat>, calls: seq<Call>)
    requires CallsAt(ps, at, calls) && Remembers(ps, |ps|, st) && (p.More? ==> st.prevName != "")
    ensures CallsAt(ps + [p], at + if p.Pair? || p.More? then [|ps|] else [], calls + CallsOf(st, p))
  {
    var at' := at + if p.Pair? || p.More? then [|ps|] else [];
    var calls', ps' := calls + CallsOf(st, p), ps + [p];
    forall i | 0 <= i < |at'| ensures CallAt(ps', at'[i], calls'[i]) {
      if i < |at| {
        CallKept(ps, p, at[i], calls[i]);
      } else {
        NewCall(ps, p, st, calls'[i]);
      }
    }
    forall k | Calling(ps', k) ensures k in at' {
      if k < |ps| {
        assert ps'[k] == ps[k] && Calling(ps, k);
      } else {
        assert at'[|at|] == k;
      }
    }
  }

  /** What lines, calls and memory of the parser have to do with each other. */
  ghost predicate Reading(means: Meaning, lines: seq<string>, ps: seq<Parsed>, at: seq<nat>, st: State,
                          calls: seq<Call>) {
    Understood(means, lines, ps) && Remembers(ps, |ps|, st) && CallsAt(ps, at, calls)
  }

  lemma OneMoreRead(parse: Parser, means: Meaning, lines: seq<string>, ps: seq<Parsed>, at: seq<nat>, st: State,
                    calls: seq<Call>, p: Parsed)
    requires Follows(parse, means) && |ps| < |lines| && Reading(means, lines, ps, at, st, calls)
    requires st == StateAt(parse, lines, |ps|) && p == ParsedAt(parse, lines, |ps|)
    ensures Reading(means, lines, ps + [p], at + (if p.Pair? || p.More? then [|ps|] else []), Next(st, p),
                    calls + CallsOf(st, p))
  {
    MeantHere(parse, means, lines, |ps|);
    LineExplained(means, lines, ps, p, st, at, calls);
  }

  lemma MeantHere(parse: Parser, means: Meaning, lines: seq<string>, k: nat)
    requires Follows(parse, means) && k < |lines|
    ensures means(lines[k], k == 0, StateAt(parse, lines, k).prevName != "", ParsedAt(parse, lines, k))
    ensures ParsedAt(parse, lines, k).More? ==> StateAt(parse, lines, k).prevName != ""
  {
  }

  lemma LineExplained(means: Meaning, lines: seq<string>, ps: seq<Parsed>, p: Parsed, st: State, at: seq<nat>,
                      calls: seq<Call>)
    requires Reading(means, lines, ps, at, st, calls) && |ps| < |lines|
    requires means(lines[|ps|], |ps| == 0, st.prevName != "", p) && (p.More? ==> st.prevName != "")
    ensures Reading(means, lines, ps + [p], at + (if p.Pair? || p.More? then [|ps|] else []), Next(st, p),
                    calls + CallsOf(st, p))
  {
    NamedIs(ps, st);
    UnderstoodNext(means, lines, ps, p);
    RemembersNext(ps, p, st);
    CallsNext(ps, p, st, at, calls);
  }

  lemma UnderstoodNext(means: Meaning, lines: seq<string>, ps: seq<Parsed>, p: Parsed)
    requires Understood(means, lines, ps) && |ps| < |lines| && means(lines[|ps|], |ps| == 0, Named(ps, |ps|), p)
    ensures Understood(means, lines, ps + [p])
  {
    var ps' := ps + [p];
    forall k | 0 <= k < |ps'| ensures LineIs(means, lines, ps', k) {
      NamedKept(ps, p, k);
      if k < |ps| {
        assert ps'[k] == ps[k] && LineIs(means, lines, ps, k);
      }
    }
  }

  lemma NamedKept(ps: seq<Parsed>, p: Parsed, k: int)
    requires k <= |ps|
    ensures Named(ps + [p], k) <==> Named(ps, k)
  {
    var ps' := ps + [p];
    forall j ensures Governs(ps', j, k) <==> Governs(ps, j, k) {
      SameBefore(ps, p, k, j);
    }
    if j :| Governs(ps, j, k) && ps[j].Pair? && ps[j].name != "" {
      assert Governs(ps', j, k) && ps'[j] == ps[j];
    }
    if j :| Governs(ps', j, k) && ps'[j].Pair? && ps'[j].name != "" {
      assert Governs(ps, j, k) && ps'[j] == ps[j];
    }
  }

  /** No line is malformed, and the handler was content with every call. */
  ghost predicate Fine(ps: seq<Parsed>, calls: seq<Call>, handler: Handler) {
    && (forall k :: 0 <= k < |ps| ==> !ps[k].Malformed?)
    && forall i :: 0 <= i < |calls| ==> Liked(handler, calls, i)
  }

  /** The handler was content with call i. */
  predicate Liked(handler: Handler, calls: seq<Call>, i: nat)
    requires i < |calls|
  {
    handler(calls[..i + 1])
  }

  /** Everything was fine before the last line, number `error`, and it is malformed or its call failed. */
  ghost predicate Fails(ps: seq<Parsed>, at: seq<nat>, calls: seq<Call>, handler: Handler, error: nat) {
    && |ps| == error > 0 && (forall k :: 0 <= k < error - 1 ==> !ps[k].Malformed?)
    && |at| == |calls| && (forall i :: 0 <= i < |calls| && at[i] < error - 1 ==> Liked(handler, calls, i))
    && (ps[error - 1].Malformed? || (calls != [] && at[|at| - 1] == error - 1 && !handler(calls)))
  }

  lemma FineNext(ps: seq<Parsed>, p: Parsed, at: seq<nat>, calls: seq<Call>, calls': seq<Call>, handler: Handler)
    requires Fine(ps, calls, handler) && |at| == |calls|
    requires if p.Pair? || p.More? then calls < calls' && |calls'| == |calls| + 1 else calls' == calls
    ensures !p.Malformed? && (calls' == calls || handler(calls')) ==> Fine(ps + [p], calls', handler)
    ensures p.Malformed? || (calls' != calls && !handler(calls')) ==>
              Fails(ps + [p], at + if p.Pair? || p.More? then [|ps|] else [], calls', handler, |ps| + 1)
  {
    forall i | 0 <= i < |calls| ensures Liked(handler, calls', i) {
      assert Liked(handler, calls, i) && calls'[..i + 1] == calls[..i + 1];
    }
    assert calls' != calls ==> calls'[..|calls| + 1] == calls';
  }

  /**
   `ini_parse_stream`: the number of the first bad line, or 0 if there is none, and exactly the handler calls
   of the lines up to there.  `ps` says what each line read was, and `at` which line each call belongs to.
   */
  method ParseStream(lines: seq<string>, handler: Handler)
    returns (error: nat, calls: seq<Call>, ghost ps: seq<Parsed>, ghost at: seq<nat>)
    ensures error == 0 ==> GoodUpTo(ParseLine, lines, handler, |lines|) && calls == AllCalls(ParseLine, lines, |lines|)
    ensures error > 0 ==> && error <= |lines| && GoodUpTo(ParseLine, lines, handler, error - 1)
                          && BadLine(ParseLine, lines, handler, error - 1) && calls == AllCalls(ParseLine, lines, error)
    ensures Understood(Means, lines, ps) && CallsAt(ps, at, calls)
    ensures if error == 0 then |ps| == |lines| && Fine(ps, calls, handler) else Fails(ps, at, calls, handler, error)
  {
    var st := State("", "");
    calls, ps, at := [], [], [];
    assert Reading(Means, lines, ps, at, st, calls);
    var lineno := 0;
    while lineno < |lines|
      invariant 0 <= lineno <= |lines| && calls == AllCalls(ParseLine, lines, lineno)
                && st == StateAt(ParseLine, lines, lineno)
      invariant GoodUpTo(ParseLine, lines, handler, lineno)
      invariant |ps| == lineno && Reading(Means, lines, ps, at, st, calls)
      invariant Fine(ps, calls, handler)
    {
      var bad;
      st, calls, bad, ps, at := ReadLine(lines, handler, lineno, st, calls, ps, at);
      lineno := lineno + 1;
      if bad {
        return lineno, calls, ps, at;
      }
      OneMoreGood(ParseLine, lines, handler, lineno);
    }
    error := 0;
  }

  /** One turn of the loop, and what it means. */
  method ReadLine(lines: seq<string>, handler: Handler, k: nat, st: State, calls: seq<Call>, ghost ps: seq<Parsed>,
                  ghost at: seq<nat>)
    returns (st': State, calls': seq<Call>, bad: bool, ghost ps': seq<Parsed>, ghost at': seq<nat>)
    requires k < |lines| && st == StateAt(ParseLine, lines, k) && calls == AllCalls(ParseLine, lines, k)
    requires |ps| == k && Reading(Means, lines, ps, at, st, calls) && Fine(ps, calls, handler)
    ensures st' == StateAt(ParseLine, lines, k + 1) && calls' == AllCalls(ParseLine, lines, k + 1)
            && bad == BadLine(ParseLine, lines, handler, k)
    ensures |ps'| == k + 1 && Reading(Means, lines, ps', at', st', calls')
    ensures if bad then Fails(ps', at', calls', handler, k + 1) else Fine(ps', calls', handler)
  {
    ghost var p;
    st', calls', bad, p := HandleLine(lines, handler, k, st, calls);
    ParseLineFollows();
    OneMoreRead(ParseLine, Means, lines, ps, at, st, calls, p);
    FineNext(ps, p, at, calls, calls', handler);
    ps', at' := ps + [p], at + if p.Pair? || p.More? then [k] else [];
  }

  method HandleLine(lines: seq<string>, handler: Handler, k: nat, st: State, calls: seq<Call>)
    returns (st': State, calls': seq<Call>, bad: bool, ghost p: Parsed)
    requires k < |lines| && st == StateAt(ParseLine, lines, k) && calls == AllCalls(ParseLine, lines, k)
    ensures st' == StateAt(ParseLine, lines, k + 1) && calls' == AllCalls(ParseLine, lines, k + 1)
            && bad == BadLine(ParseLine, lines, handler, k)
    ensures p == ParsedAt(ParseLine, lines, k) && st' == Next(st, p) && calls' == calls + CallsOf(st, p)
    ensures bad == (p.Malformed? || (CallsOf(st, p) != [] && !handler(calls')))
  {
    var parsed := Recognise(lines[k], k == 0, st.prevName != "");
    p := parsed;
    assert p == ParsedAt(ParseLine, lines, k);
    st', calls', bad := Obey(parsed, handler, st, calls);
  }

  /** What a line makes the parser do. */
  method Obey(p: Parsed, handler: Handler, st: State, calls: seq<Call>)
    returns (st': State, calls': seq<Call>, bad: bool)
    ensures st' == Next(st, p) && calls' == calls + CallsOf(st, p)
    ensures bad == (p.Malformed? || (CallsOf(st, p) != [] && !handler(calls')))
  {
    st', calls', bad := st, calls, false;
    match p {
      case Nothing =>
      case More(value) =>
        calls' := calls + [Call(st.section, st.prevName, value)];
        bad := !handler(calls');
      case Section(name) =>
        st' := State(Truncated(name, MAX_SECTION), "");
      case Pair(name, value) =>
        st' := st.(prevName := Truncated(name, MAX_NAME));
        calls' := calls + [Call(st.section, name, value)];
        bad := !handler(calls');
      case Malformed =>
        bad := true;
    }
  }

  /** The part of the loop that looks at the line. */
  method Recognise(line: string, first: bool, named: bool) returns (p: Parsed)
    ensures p == ParseLine(line, first, named) && Means(line, first, named, p)
  {
    ParseMeans(line, first, named);
    var b := Skipped(line, first);
    var s := RStrip(line[b..]);
    var k := LSkip(s);
    var text := s[k..];
    if text == "" || text[0] == ';' || text[0] == '#' {
      return Nothing;
    }
    if named && b + k > 0 {
      return More(text);
    }
    if text[0] == '[' {
      p := RecogniseSection(text[1..]);
    } else {
      p := RecognisePair(text);
    }
  }

  method RecogniseSection(text: string) returns (p: Parsed)
    ensures p == ParseSection(text)
  {
    var e := FindCharsOrComment(text, {']'});
    if e < |text| && text[e] == ']' {
      return Section(text[..e]);
    }
    return Malformed;
  }

  method RecognisePair(text: string) returns (p: Parsed)
    ensures p == ParsePair(text)
  {
    var e := FindCharsOrComment(text, {'=', ':'});
    if e < |text| && (text[e] == '=' || text[e] == ':') {
      var name := RStrip(text[..e]);
      var value := RecogniseValue(text[e + 1..]);
      return Pair(name, value);
    }
    return Malformed;
  }

  method RecogniseValue(s: string) returns (value: string)
    ensures value == ValueOf(s)
  {
    var end := FindCharsOrComment(s, {});
    var t := s[..end];
    var skip := LSkip(t);
    value := RStrip(t[skip..]);
  }

  // ---- reading lines

  /** How many characters `fgets` takes: through the next newline, but no more than fit in the buffer. */
  function LineLength(text: string, limit: nat): (k: nat)
    requires text != "" && limit > 0
    ensures 0 < k <= |text|
  {
    if text[0] == '\n' || |text| == 1 || limit == 1 then 1 else LineLength(text[1..], limit - 1) + 1
  }

  function Lines(text: string): seq<string> {
    if text == "" then []
    else
      var k := LineLength(text, INI_MAX_LINE - 1);
      [text[..k]] + Lines(text[k..])
  }

  /** What the reader puts in a buffer of 2048: no more than one line, and no less unless it does not fit. */
  ghost predicate Chunk(l: string, last: bool) {
    && 0 < |l| <= 2047 && (forall i :: 0 <= i < |l| - 1 ==> l[i] != '\n')
    && (l[|l| - 1] == '\n' || |l| == 2047 || last)
  }

  lemma {:induction false} LineLengthHas(text: string, limit: nat)
    requires text != "" && limit > 0
    ensures var k := LineLength(text, limit);
            && k <= limit && (forall i :: 0 <= i < k - 1 ==> text[i] != '\n')
            && (text[k - 1] == '\n' || k == limit || k == |text|)
  {
    if !(text[0] == '\n' || |text| == 1 || limit == 1) {
      LineLengthHas(text[1..], limit - 1);
      assert forall i :: 0 < i < |text| ==> text[i] == text[1..][i - 1];
    }
  }

  /** The lines are the text, cut after each newline and where the buffer is full. */
  lemma {:induction false} LinesCut(text: string)
    ensures Concat(Lines(text)) == text
    ensures forall i :: 0 <= i < |Lines(text)| ==> Chunk(Lines(text)[i], i == |Lines(text)| - 1)
  {
    if text != "" {
      var k := LineLength(text, INI_MAX_LINE - 1);
      LineLengthHas(text, INI_MAX_LINE - 1);
      LinesCut(text[k..]);
      assert text == text[..k] + text[k..];
      assert Lines(text) == [text[..k]] + Lines(text[k..]);
      assert k < |text| ==> Lines(text[k..]) != [];
    }
  }

  /** A line that fits in the buffer. */
  ghost predicate FullLine(l: string) {
    0 < |l| < INI_MAX_LINE && l[|l| - 1] == '\n' && forall i :: 0 <= i < |l| - 1 ==> l[i] != '\n'
  }

  lemma {:induction false} LineLengthIs(l: string, rest: string, limit: nat)
    requires 0 < |l| <= limit && l[|l| - 1] == '\n' && forall i :: 0 <= i < |l| - 1 ==> l[i] != '\n'
    ensures LineLength(l + rest, limit) == |l|
  {
    if |l| > 1 {
      LineLengthIs(l[1..], rest, limit - 1);
      assert (l + rest)[1..] == l[1..] + rest;
    }
  }

  function Concat(ls: seq<string>): string {
    if ls == [] then "" else ls[0] + Concat(ls[1..])
  }

  lemma {:induction false} LinesOf(ls: seq<string>)
    requires forall i :: 0 <= i < |ls| ==> FullLine(ls[i])
    ensures Lines(Concat(ls)) == ls
  {
    if ls != [] {
      LineLengthIs(ls[0], Concat(ls[1..]), INI_MAX_LINE - 1);
      var text := ls[0] + Concat(ls[1..]);
      assert text[..|ls[0]|] == ls[0] && text[|ls[0]|..] == Concat(ls[1..]);
      LinesOf(ls[1..]);
    }
  }

  // ---- writing lines

  function HeaderLine(section: string): string { "[" + section + "]\n" }

  function PairLine(name: string, value: string): string { name + "=" + value + "\n" }

  function SectionAfter(es: seq<Call>): string { if es == [] then "" else es[|es| - 1].section }

  /** A header whenever the section changes, and a line for each pair. */
  function Printed(es: seq<Call>): seq<string> {
    if es == [] then []
    else
      var init, e := es[..|es| - 1], es[|es| - 1];
      Printed(init) + (if e.section == SectionAfter(init) then [] else [HeaderLine(e.section)]) +
      [PairLine(e.name, e.value)]
  }

  function Print(es: seq<Call>): string { Concat(Printed(es)) }

  ghost predicate Clean(s: string, chars: set<char>) {
    (forall i :: 0 <= i < |s| ==> s[i] != '\n') && forall i :: 0 <= i < |s| ==> !Stops(s, chars, i)
  }

  predicate Trimmed(s: string) { s == "" || (!IsSpace(s[0]) && !IsSpace(s[|s| - 1])) }

  ghost predicate SectionOk(s: string) { Clean(s, {']'}) && |s| < MAX_SECTION }

  ghost predicate NameOk(s: string) {
    Clean(s, {'=', ':'}) && Trimmed(s) && !HasBom(s) && (s != "" ==> s[0] !in {';', '#', '['})
  }

  ghost predicate ValueOk(s: string) { Clean(s, {}) && Trimmed(s) }

  /** What can be written as an INI entry: no character that the syntax claims, and not too long for a line. */
  ghost predicate EntryOk(e: Call) {
    SectionOk(e.section) && NameOk(e.name) && ValueOk(e.value) && |e.name| + |e.value| + 2 < INI_MAX_LINE
  }

  lemma HeaderParses(section: string, first: bool, named: bool)
    requires SectionOk(section)
    ensures ParseLine(HeaderLine(section), first, named) == Section(section)
  {
    var line, text := HeaderLine(section), "[" + section + "]";
    assert line[0] == '[';
    assert line[0..] == line;
    RStrippedIs(line, |text|);
    assert line[..|text|] == text;
    BlanksIs(text, 0);
    assert text[0..] == text;
    var rest := section + "]";
    assert text[1..] == rest;
    forall j | 0 <= j < |section| ensures !Stops(rest, {']'}, j) {
      assert !Stops(section, {']'}, j);
    }
    FindIs(rest, {']'}, 0, |section|);
    assert rest[..|section|] == section;
  }

  lemma ValueParses(value: string)
    requires ValueOk(value)
    ensures ValueOf(value) == value
  {
    FindIs(value, {}, 0, |value|);
    assert value[..|value|] == value;
    BlanksIs(value, 0);
    assert value[0..] == value;
    RStrippedIs(value, |value|);
  }

  lemma PairTextParses(name: string, value: string)
    requires NameOk(name) && ValueOk(value)
    ensures ParsePair(name + "=" + value) == Pair(name, value)
  {
    var text := name + "=" + value;
    forall j | 0 <= j < |name| ensures !Stops(text, {'=', ':'}, j) {
      assert !Stops(name, {'=', ':'}, j);
    }
    FindIs(text, {'=', ':'}, 0, |name|);
    assert text[..|name|] == name && text[|name| + 1..] == value;
    RStrippedIs(name, |name|);
    assert name[..|name|] == name;
    ValueParses(value);
  }

  lemma PairParses(name: string, value: string, first: bool, named: bool)
    requires NameOk(name) && ValueOk(value)
    ensures ParseLine(PairLine(name, value), first, named) == Pair(name, value)
  {
    var line, text := PairLine(name, value), name + "=" + value;
    assert line == text + "\n";
    NoBom(name, value);
    assert line[0..] == line;
    RStrippedIs(line, |text|);
    assert line[..|text|] == text;
    BlanksIs(text, 0);
    assert text[0..] == text;
    PairTextParses(name, value);
  }

  lemma NoBom(name: string, value: string)
    requires !HasBom(name)
    ensures !HasBom(PairLine(name, value))
  {
  }

  // ---- writing and reading back

  /** Written lines are recognised wherever they stand. */
  ghost predicate Reads(parse: Parser) {
    && (forall s, first, named :: SectionOk(s) ==> parse(HeaderLine(s), first, named) == Section(s))
    && (forall s, v, first, named :: NameOk(s) && ValueOk(v) ==> parse(PairLine(s, v), first, named) == Pair(s, v))
  }

  lemma ParseLineReads()
    ensures Reads(ParseLine)
  {
    forall s, first, named | SectionOk(s) ensures ParseLine(HeaderLine(s), first, named) == Section(s) {
      HeaderParses(s, first, named);
    }
    forall s, v, first, named | NameOk(s) && ValueOk(v) ensures ParseLine(PairLine(s, v), first, named) == Pair(s, v) {
      PairParses(s, v, first, named);
    }
  }

  lemma {:induction false} MoreLines(parse: Parser, ls: seq<string>, ls': seq<string>, k: nat)
    requires ls <= ls' && k <= |ls|
    ensures StateAt(parse, ls, k) == StateAt(parse, ls', k) && AllCalls(parse, ls, k) == AllCalls(parse, ls', k)
    ensures k < |ls| ==> ParsedAt(parse, ls, k) == ParsedAt(parse, ls', k)
  {
    if k > 0 {
      MoreLines(parse, ls, ls', k - 1);
    }
  }

  predicate IsFine(parse: Parser, ls: seq<string>, k: nat)
    requires k < |ls|
  {
    !ParsedAt(parse, ls, k).Malformed?
  }

  ghost predicate WellFormed(parse: Parser, ls: seq<string>) {
    forall k {:trigger IsFine(parse, ls, k)} :: 0 <= k < |ls| ==> IsFine(parse, ls, k)
  }

  /** What one more line changes. */
  lemma OneMoreLine(parse: Parser, ls: seq<string>, l: string, p: Parsed, ls': seq<string>)
    requires WellFormed(parse, ls) && ls' == ls + [l] && !p.Malformed?
    requires p == parse(l, ls == [], StateAt(parse, ls, |ls|).prevName != "")
    ensures WellFormed(parse, ls') && StateAt(parse, ls', |ls| + 1) == Next(StateAt(parse, ls, |ls|), p)
    ensures AllCalls(parse, ls', |ls| + 1) == AllCalls(parse, ls, |ls|) + CallsOf(StateAt(parse, ls, |ls|), p)
  {
    LastLine(parse, ls, l, p, ls');
    StillFine(parse, ls, ls');
  }

  lemma StillFine(parse: Parser, ls: seq<string>, ls': seq<string>)
    requires WellFormed(parse, ls) && ls <= ls' && |ls'| == |ls| + 1 && IsFine(parse, ls', |ls|)
    ensures WellFormed(parse, ls')
  {
    forall k | 0 <= k < |ls'| ensures IsFine(parse, ls', k) {
      if k < |ls| {
        MoreLines(parse, ls, ls', k);
        assert IsFine(parse, ls, k);
      }
    }
  }

  lemma LastLine(parse: Parser, ls: seq<string>, l: string, p: Parsed, ls': seq<string>)
    requires ls' == ls + [l] && p == parse(l, ls == [], StateAt(parse, ls, |ls|).prevName != "")
    ensures ParsedAt(parse, ls', |ls|) == p && StateAt(parse, ls', |ls| + 1) == Next(StateAt(parse, ls, |ls|), p)
    ensures AllCalls(parse, ls', |ls| + 1) == AllCalls(parse, ls, |ls|) + CallsOf(StateAt(parse, ls, |ls|), p)
  {
    MoreLines(parse, ls, ls', |ls|);
    assert ls'[|ls|] == l;
  }

  /** After reading the lines of some entries: their calls, a section to go on with, and no complaint. */
  ghost predicate ReadBack(parse: Parser, ls: seq<string>, es: seq<Call>, section: string) {
    WellFormed(parse, ls) && AllCalls(parse, ls, |ls|) == es && StateAt(parse, ls, |ls|).section == section
  }

  lemma ReadHeader(parse: Parser, ls: seq<string>, es: seq<Call>, was: string, section: string)
    requires Reads(parse) && ReadBack(parse, ls, es, was) && SectionOk(section)
    ensures ReadBack(parse, ls + [HeaderLine(section)], es, section)
  {
    OneMoreLine(parse, ls, HeaderLine(section), Section(section), ls + [HeaderLine(section)]);
  }

  lemma ReadPair(parse: Parser, ls: seq<string>, es: seq<Call>, e: Call)
    requires Reads(parse) && ReadBack(parse, ls, es, e.section) && NameOk(e.name) && ValueOk(e.value)
    ensures ReadBack(parse, ls + [PairLine(e.name, e.value)], es + [e], e.section)
  {
    OneMoreLine(parse, ls, PairLine(e.name, e.value), Pair(e.name, e.value), ls + [PairLine(e.name, e.value)]);
  }

  lemma {:induction false} PrintedReadsBack(parse: Parser, es: seq<Call>)
    requires Reads(parse) && forall i :: 0 <= i < |es| ==> EntryOk(es[i])
    ensures ReadBack(parse, Printed(es), es, SectionAfter(es))
  {
    if es != [] {
      var init, e := es[..|es| - 1], es[|es| - 1];
      assert es == init + [e] && EntryOk(e);
      PrintedReadsBack(parse, init);
      ReadEntry(parse, Printed(init), init, e, Printed(es));
    }
  }

  lemma ReadEntry(parse: Parser, ls: seq<string>, es: seq<Call>, e: Call, ls': seq<string>)
    requires Reads(parse) && ReadBack(parse, ls, es, SectionAfter(es)) && EntryOk(e)
    requires ls' == ls + (if e.section == SectionAfter(es) then [] else [HeaderLine(e.section)]) +
             [PairLine(e.name, e.value)]
    ensures ReadBack(parse, ls', es + [e], e.section)
  {
    if e.section == SectionAfter(es) {
      assert ls' == ls + [PairLine(e.name, e.value)];
      ReadPair(parse, ls, es, e);
    } else {
      ReadHeader(parse, ls, es, SectionAfter(es), e.section);
      ReadPair(parse, ls + [HeaderLine(e.section)], es, e);
    }
  }

  lemma {:induction false} PrintedFits(es: seq<Call>)
    requires forall i :: 0 <= i < |es| ==> EntryOk(es[i])
    ensures forall i :: 0 <= i < |Printed(es)| ==> FullLine(Printed(es)[i])
  {
    if es != [] {
      var e := es[|es| - 1];
      PrintedFits(es[..|es| - 1]);
      assert EntryOk(e);
      assert FullLine(HeaderLine(e.section)) && FullLine(PairLine(e.name, e.value));
    }
  }

  lemma NothingBad(parse: Parser, lines: seq<string>, handler: Handler)
    requires WellFormed(parse, lines) && forall cs :: handler(cs)
    ensures GoodUpTo(parse, lines, handler, |lines|)
  {
    forall k | 0 <= k < |lines| ensures !BadLine(parse, lines, handler, k) {
      assert IsFine(parse, lines, k);
    }
  }

  /** Whatever is written is read back: the same handler calls in the same order, and no error. */
  method RoundTrip(es: seq<Call>, handler: Handler) returns (error: nat, calls: seq<Call>)
    requires forall i :: 0 <= i < |es| ==> EntryOk(es[i])
    requires forall cs :: handler(cs)
    ensures error == 0 && calls == es
  {
    ParseLineReads();
    PrintedReadsBack(ParseLine, es);
    PrintedFits(es);
    LinesOf(Printed(es));
    var lines := Lines(Print(es));
    NothingBad(ParseLine, lines, handler);
    ghost var ps, at;
    error, calls, ps, at := ParseStream(lines, handler);
  }
}
