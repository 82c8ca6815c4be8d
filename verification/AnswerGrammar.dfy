/**
 The answer grammar: parseAnswer, parseAnswerBlock and formatCompactAnswer
 (packages/answer-grammar/src/parse-answer.ts), with no board words to protect. Each
 regular expression is a scan with the same leftmost, greedy meaning.
 */
module AnswerGrammar {
  import opened Options

  const GROUP_SIZE := 4

  datatype Issue = ParentheticalStripped | GroupCountOff | Unclassified | MultipleProposals

  /** `proposalWords` is indexed by group number - 1 and may have holes. */
  datatype ParsedAnswer = ParsedAnswer(
    groups: seq<seq<string>>,
    proposalWords: seq<Option<seq<string>>>,
    categoryByGroup: map<nat, string>,
    textIssues: set<Issue>)

  // ----- characters -----

  /** `\s`, and what trim() removes. */
  predicate IsSpace(c: char) {
    var n := c as int;
    || 9 <= n <= 13 || n == 0x20 || n == 0xA0 || n == 0x1680 || 0x2000 <= n <= 0x200A
    || n == 0x2028 || n == 0x2029 || n == 0x202F || n == 0x205F || n == 0x3000 || n == 0xFEFF
  }

  predicate IsDigit(c: char) {
    '0' <= c <= '9'
  }

  function Lower(c: char): char {
    if 'A' <= c <= 'Z' then (c as int + 32) as char else c
  }

  function SkipSpaces(text: string, i: nat): (j: nat)
    requires i <= |text|
    ensures i <= j <= |text|
    decreases |text| - i
  {
    if i < |text| && IsSpace(text[i]) then SkipSpaces(text, i + 1) else i
  }

  function SkipDigits(text: string, i: nat): (j: nat)
    requires i <= |text|
    ensures i <= j <= |text|
    decreases |text| - i
  {
    if i < |text| && IsDigit(text[i]) then SkipDigits(text, i + 1) else i
  }

  function LineEnd(text: string, i: nat): (j: nat)
    requires i <= |text|
    ensures i <= j <= |text|
    decreases |text| - i
  {
    if i < |text| && text[i] != '\n' then LineEnd(text, i + 1) else i
  }

  function TrimStart(s: string): string {
    if s != "" && IsSpace(s[0]) then TrimStart(s[1..]) else s
  }

  function TrimEnd(s: string): string {
    if s != "" && IsSpace(s[|s| - 1]) then TrimEnd(s[..|s| - 1]) else s
  }

  function Trim(s: string): string {
    TrimEnd(TrimStart(s))
  }

  /** `s.replace(/[chars]/g, "")`. */
  function Strip(s: string, chars: string): string {
    if s == "" then "" else (if s[0] in chars then "" else [s[0]]) + Strip(s[1..], chars)
  }

  function IndexOf(s: string, c: char, i: nat): (r: Option<nat>)
    requires i <= |s|
    ensures r.Some? ==> i <= r.value < |s| && s[r.value] == c
    decreases |s| - i
  {
    if i == |s| then None else if s[i] == c then Some(i) else IndexOf(s, c, i + 1)
  }

  function SplitOn(s: string, sep: char): (parts: seq<string>)
    ensures parts != []
  {
    if s == "" then [""]
    else
      var rest := SplitOn(s[1..], sep);
      if s[0] == sep then [""] + rest else [[s[0]] + rest[0]] + rest[1..]
  }

  /** `s.replace(/\([^)]*\)/g, "")`: from each opening parenthesis to the next closing one. */
  function StripParentheticals(s: string, i: nat): string
    requires i <= |s|
    decreases |s| - i
  {
    if i == |s| then ""
    else if s[i] == '('
    then match IndexOf(s, ')', i)
      case Some(k) => StripParentheticals(s, k + 1)
      case None => [s[i]] + StripParentheticals(s, i + 1)
    else [s[i]] + StripParentheticals(s, i + 1)
  }

  /** The items of a comma-separated line, cleaned, without the empty ones. */
  function Items(line: string, strip: string): seq<string> {
    Cleaned(SplitOn(line, ','), strip)
  }

  function Cleaned(parts: seq<string>, strip: string): seq<string> {
    if parts == [] then []
    else
      var word := Trim(Strip(parts[0], strip));
      (if word == "" then [] else [word]) + Cleaned(parts[1..], strip)
  }

  // ----- markers -----

  /** A case-insensitive literal; `marker` is in lower case. */
  predicate LabelAt(text: string, i: nat, marker: string) {
    && i + |marker| <= |text|
    && forall k :: 0 <= k < |marker| ==> Lower(text[i + k]) == marker[k]
  }

  function FindLabel(text: string, i: nat, marker: string): (r: Option<nat>)
    requires i <= |text|
    ensures r.Some? ==> i <= r.value && LabelAt(text, r.value, marker)
    decreases |text| - i
  {
    if LabelAt(text, i, marker) then Some(i) else if i == |text| then None else FindLabel(text, i + 1, marker)
  }

  /** `/###?\s*ANSWER:?/i` at a position: where the match ends. */
  function AnswerAt(text: string, i: nat): (e: Option<nat>)
    ensures e.Some? ==> i < e.value <= |text|
  {
    if !(i + 2 <= |text| && text[i] == '#' && text[i + 1] == '#') then None
    else
      var j := SkipSpaces(text, if i + 2 < |text| && text[i + 2] == '#' then i + 3 else i + 2);
      if !LabelAt(text, j, "answer") then None
      else if j + 6 < |text| && text[j + 6] == ':' then Some(j + 7) else Some(j + 6)
  }

  function FindAnswer(text: string, i: nat): (r: Option<nat>)
    requires i <= |text|
    ensures r.Some? ==> i <= r.value && AnswerAt(text, r.value).Some?
    decreases |text| - i
  {
    if AnswerAt(text, i).Some? then Some(i) else if i == |text| then None else FindAnswer(text, i + 1)
  }

  /** The text after the first answer marker, up to a second one; and whether there is a second one. */
  function AnswerBlock(text: string): Option<(string, bool)> {
    match FindAnswer(text, 0)
    case None => None
    case Some(i) =>
      var e := AnswerAt(text, i).value;
      match FindAnswer(text, e)
      case None => Some((text[e..], false))
      case Some(k) => Some((text[e..k], true))
  }

  /** `/Group\s+\d+/i` at a position. */
  predicate GroupAt(text: string, i: nat) {
    && LabelAt(text, i, "group")
    && var j := SkipSpaces(text, i + 5); j > i + 5 && j < |text| && IsDigit(text[j])
  }

  function FindGroup(text: string, i: nat): (r: Option<nat>)
    requires i <= |text|
    ensures r.Some? ==> i <= r.value < |text| && GroupAt(text, r.value)
    decreases |text| - i
  {
    if GroupAt(text, i) then Some(i) else if i == |text| then None else FindGroup(text, i + 1)
  }

  /** Splitting before every group heading. */
  function Chunks(text: string): seq<string> {
    if text == "" then [text]
    else
      match FindGroup(text, 1)
      case None => [text]
      case Some(i) => [text[..i]] + Chunks(text[i..])
  }

  /** `### GROUPS([\s\S]*?)### ANSWER`, or the whole text. */
  function GroupsSection(text: string): string {
    match FindLabel(text, 0, "### groups")
    case None => text
    case Some(i) =>
      match FindLabel(text, i + 10, "### answer")
      case None => text
      case Some(j) => text[i + 10..j]
  }

  /** The last character from j on that is not a line feed. */
  function LastInline(text: string, j: nat): (k: Option<nat>)
    ensures k.Some? ==> j <= k.value < |text|
    decreases |text|
  {
    if |text| <= j then None
    else if text[|text| - 1] != '\n' then Some(|text| - 1)
    else LastInline(text[..|text| - 1], j)
  }

  /** `/label\s*([^\n]+)/i` at a position: the captured rest of the line. */
  function FieldAt(text: string, i: nat, marker: string): Option<string> {
    if !LabelAt(text, i, marker) then None
    else
      var k := SkipSpaces(text, i + |marker|);
      if k < |text| then Some(text[k..LineEnd(text, k)])
      else match LastInline(text, i + |marker|)
        case None => None
        case Some(last) => Some(text[last..LineEnd(text, last)])
  }

  function Field(text: string, i: nat, marker: string): Option<string>
    requires i <= |text|
    decreases |text| - i
  {
    if FieldAt(text, i, marker).Some? then FieldAt(text, i, marker)
    else if i == |text| then None
    else Field(text, i + 1, marker)
  }

  function Number(digits: string): nat {
    if digits == "" || !IsDigit(digits[|digits| - 1]) then 0
    else 10 * Number(digits[..|digits| - 1]) + (digits[|digits| - 1] as int - '0' as int)
  }

  // ----- parsing -----

  function AnswerLines(lines: seq<string>): seq<seq<string>>
    decreases |lines|
  {
    if lines == [] then []
    else
      var words := Items(Trim(lines[|lines| - 1]), "`*#-");
      AnswerLines(lines[..|lines| - 1]) + if |words| == GROUP_SIZE then [words] else []
  }

  function AnswerGroups(text: string): seq<seq<string>> {
    match AnswerBlock(text)
    case None => []
    case Some(block) => AnswerLines(SplitOn(Trim(block.0), '\n'))
  }

  method ParseAnswerBlock(responseText: string) returns (groups: seq<seq<string>>)
    ensures groups == AnswerGroups(responseText)
  {
    var block := AnswerBlock(responseText);
    if block.None? {
      return [];
    }
    groups := ReadAnswerLines(SplitOn(Trim(block.value.0), '\n'));
  }

  method ReadAnswerLines(lines: seq<string>) returns (groups: seq<seq<string>>)
    ensures groups == AnswerLines(lines)
  {
    groups := [];
    for i := 0 to |lines|
      invariant groups == AnswerLines(lines[..i])
    {
      assert lines[..i + 1][..i] == lines[..i];
      var words := Items(Trim(lines[i]), "`*#-");
      if |words| == GROUP_SIZE {
        groups := groups + [words];
      }
    }
    assert lines[..|lines|] == lines;
  }

  /** What the loop over the chunks has gathered. */
  datatype Gathered = Gathered(slots: seq<Option<seq<string>>>, categories: map<nat, string>, issues: set<Issue>,
                               wrongCount: set<nat>, maxGroupNum: nat)

  const NOTHING := Gathered([], map[], {}, {}, 0)

  function Holes(n: nat): seq<Option<seq<string>>> {
    seq(n, i => None)
  }

  /** Assigning to an index of an array that may be shorter; group number 0 is no index. */
  function SetSlot(slots: seq<Option<seq<string>>>, groupNum: nat, words: seq<string>): seq<Option<seq<string>>> {
    if groupNum == 0 then slots
    else if groupNum <= |slots| then slots[groupNum - 1 := Some(words)]
    else slots + Holes(groupNum - 1 - |slots|) + [Some(words)]
  }

  function ReadWords(g: Gathered, groupNum: nat, line: string): Gathered {
    var stripped := StripParentheticals(line, 0);
    var issues := g.issues + if stripped != line then {ParentheticalStripped} else {};
    var words := Items(stripped, "`*");
    if |words| == GROUP_SIZE then g.(issues := issues, slots := SetSlot(g.slots, groupNum, words))
    else g.(issues := issues + {GroupCountOff}, wrongCount := g.wrongCount + {groupNum})
  }

  function HeadingNumber(chunk: string, i: nat): nat
    requires GroupAt(chunk, i)
  {
    var j := SkipSpaces(chunk, i + 5);
    Number(chunk[j..SkipDigits(chunk, j)])
  }

  function ReadChunk(g: Gathered, chunk: string): Gathered {
    match FindGroup(chunk, 0)
    case None => g
    case Some(i) =>
      var n := HeadingNumber(chunk, i);
      var g1 := g.(maxGroupNum := if n > g.maxGroupNum then n else g.maxGroupNum);
      var g2 := match Field(chunk, 0, "category:")
        case Some(category) => g1.(categories := g1.categories[n := Trim(category)])
        case None => g1;
      match Field(chunk, 0, "words:")
      case Some(line) => ReadWords(g2, n, line)
      case None => g2
  }

  function ReadChunks(g: Gathered, chunks: seq<string>): Gathered
    decreases |chunks|
  {
    if chunks == [] then g else ReadChunks(ReadChunk(g, chunks[0]), chunks[1..])
  }

  /** A group number a heading mentioned, up to n, that never parsed and is not explained by a wrong count. */
  predicate Unexplained(g: Gathered, n: nat) {
    n > 0 && (((n > |g.slots| || g.slots[n - 1].None?) && n !in g.wrongCount) || Unexplained(g, n - 1))
  }

  function Filled(slots: seq<Option<seq<string>>>): seq<seq<string>> {
    if slots == [] then []
    else (if slots[0].Some? then [slots[0].value] else []) + Filled(slots[1..])
  }

  function AllFilled(groups: seq<seq<string>>): seq<Option<seq<string>>> {
    seq(|groups|, i requires 0 <= i < |groups| => Some(groups[i]))
  }

  function TrimAll(words: seq<string>): seq<string> {
    seq(|words|, i requires 0 <= i < |words| => Trim(words[i]))
  }

  function TrimSlots(slots: seq<Option<seq<string>>>): seq<Option<seq<string>>> {
    seq(|slots|, i requires 0 <= i < |slots| => if slots[i].Some? then Some(TrimAll(slots[i].value)) else None)
  }

  function Finish(g: Gathered, answerGroups: seq<seq<string>>, multiple: bool): ParsedAnswer {
    ParsedAnswer(
      if answerGroups != [] then answerGroups else Filled(g.slots),
      TrimSlots(if g.slots != [] then g.slots else AllFilled(answerGroups)),
      g.categories,
      g.issues + (if multiple then {MultipleProposals} else {})
      + if Unexplained(g, g.maxGroupNum) then {Unclassified} else {})
  }

  function Parse(text: string): ParsedAnswer {
    var block := AnswerBlock(text);
    Finish(ReadChunks(NOTHING, Chunks(GroupsSection(text))), AnswerGroups(text), block.Some? && block.value.1)
  }

  method ParseAnswer(responseText: string) returns (r: ParsedAnswer)
    ensures r == Parse(responseText)
  {
    var answerBlockGroups := ParseAnswerBlock(responseText);
    var block := AnswerBlock(responseText);
    var g := NOTHING;
    var chunks := Chunks(GroupsSection(responseText));
    for i := 0 to |chunks|
      invariant ReadChunks(g, chunks[i..]) == ReadChunks(NOTHING, chunks)
    {
      assert chunks[i..][0] == chunks[i] && chunks[i..][1..] == chunks[i + 1..];
      g := ReadChunk(g, chunks[i]);
    }
    assert chunks[|chunks|..] == [];
    var unexplained := false;
    for groupNum := 1 to g.maxGroupNum + 1
      invariant unexplained <==> Unexplained(g, groupNum - 1)
    {
      if (groupNum > |g.slots| || g.slots[groupNum - 1].None?) && groupNum !in g.wrongCount {
        unexplained := true;
      }
    }
    r := Finish(g, answerBlockGroups, block.Some? && block.value.1);
  }

  // ----- printing -----

  function Join(parts: seq<string>, sep: string): string {
    if parts == [] then ""
    else if |parts| == 1 then parts[0]
    else parts[0] + sep + Join(parts[1..], sep)
  }

  function Decimal(n: nat): string {
    if n < 10 then [('0' as int + n) as char] else Decimal(n / 10) + [('0' as int + n % 10) as char]
  }

  function CategoryLine(categories: map<nat, string>, groupNum: nat): string {
    if groupNum in categories && categories[groupNum] != "" then "Category: " + categories[groupNum] + "\n" else ""
  }

  function Block(categories: map<nat, string>, groupNum: nat, words: seq<string>): string {
    "Group " + Decimal(groupNum) + "\n" + CategoryLine(categories, groupNum) + "Words: " + Join(words, ", ")
  }

  /** One block per filled slot, in order. */
  function Blocks(slots: seq<Option<seq<string>>>, categories: map<nat, string>): seq<string>
    decreases |slots|
  {
    if slots == [] then []
    else
      var n := |slots|;
      Blocks(slots[..n - 1], categories)
      + if slots[n - 1].Some? then [Block(categories, n, slots[n - 1].value)] else []
  }

  function Lines(slots: seq<Option<seq<string>>>): seq<string>
    decreases |slots|
  {
    if slots == [] then []
    else Lines(slots[..|slots| - 1]) + if slots[|slots| - 1].Some? then [Join(slots[|slots| - 1].value, ", ")] else []
  }

  function FormatCompactAnswer(proposalWords: seq<Option<seq<string>>>, categoryByGroup: map<nat, string>): string {
    "### GROUPS\n" + Join(Blocks(proposalWords, categoryByGroup), "\n\n") + "\n\n### ANSWER\n"
    + Join(Lines(proposalWords), "\n")
  }
}
