/**
 What the scans of the answer grammar match, against its regular expressions
 (packages/answer-grammar/src/parse-answer.ts): the heading, group and field patterns,
 each at its leftmost place and with its greedy match.
 */
module AnswerPatterns {
  import opened AnswerGrammar
  import opened Options

  /** `\s*` from i to j. */
  ghost predicate Spaces(text: string, i: nat, j: nat) {
    i <= j <= |text| && forall k :: i <= k < j ==> IsSpace(text[k])
  }

  lemma {:induction false} SkipsSpaces(text: string, i: nat)
    requires i <= |text|
    ensures var j := SkipSpaces(text, i); Spaces(text, i, j) && (j < |text| ==> !IsSpace(text[j]))
    decreases |text| - i
  {
    if i < |text| && IsSpace(text[i]) {
      SkipsSpaces(text, i + 1);
    }
  }

  lemma FirstWord(text: string, i: nat, j: nat)
    requires Spaces(text, i, j) && j < |text| && !IsSpace(text[j])
    ensures SkipSpaces(text, i) == j
  {
    SkipsSpaces(text, i);
  }

  // ----- ANSWER -----

  /** `###?\s*ANSWER` with h number signs at i and its word at j, in any case. */
  ghost predicate AnswerMark(text: string, i: nat, h: nat, j: nat) {
    && 2 <= h <= 3 && i + h <= |text| && (forall k :: i <= k < i + h ==> text[k] == '#')
    && Spaces(text, i + h, j) && LabelAt(text, j, "answer")
  }

  function AfterColon(text: string, e: nat): nat {
    if e < |text| && text[e] == ':' then e + 1 else e
  }

  lemma LabelStarts(text: string, j: nat, marker: string)
    requires marker != "" && 'a' <= marker[0] <= 'z' && LabelAt(text, j, marker)
    ensures j < |text| && !IsSpace(text[j]) && text[j] != '#'
  {
    assert Lower(text[j + 0]) == marker[0];
  }

  lemma AnswerMarkAt(text: string, i: nat, h: nat, j: nat)
    requires AnswerMark(text, i, h, j)
    ensures AnswerAt(text, i) == Some(AfterColon(text, j + 6))
  {
    LabelStarts(text, j, "answer");
    if h == 2 && i + 2 < |text| && text[i + 2] == '#' {
      assert false;
    }
    FirstWord(text, i + h, j);
  }

  /** The scan matches where, and as far as, the answer heading does. */
  lemma AnswerAtExactly(text: string, i: nat)
    ensures AnswerAt(text, i).Some? <==> exists h: nat, j: nat :: AnswerMark(text, i, h, j)
    ensures forall h: nat, j: nat :: AnswerMark(text, i, h, j) ==> AnswerAt(text, i) == Some(AfterColon(text, j + 6))
  {
    if AnswerAt(text, i).Some? {
      var h := if i + 2 < |text| && text[i + 2] == '#' then 3 else 2;
      SkipsSpaces(text, i + h);
      assert AnswerMark(text, i, h, SkipSpaces(text, i + h));
    }
    forall h: nat, j: nat | AnswerMark(text, i, h, j) ensures AnswerAt(text, i) == Some(AfterColon(text, j + 6)) {
      AnswerMarkAt(text, i, h, j);
    }
  }

  // ----- Group n -----

  /** `\d+` from j to k, as far as it goes. */
  ghost predicate Digits(text: string, j: nat, k: nat) {
    && j < k <= |text| && (forall m :: j <= m < k ==> IsDigit(text[m]))
    && (k < |text| ==> !IsDigit(text[k]))
  }

  lemma {:induction false} SkipsDigits(text: string, j: nat, k: nat)
    requires Digits(text, j, k) || (j == k <= |text| && (k < |text| ==> !IsDigit(text[k])))
    ensures SkipDigits(text, j) == k
    decreases k - j
  {
    if j < k {
      SkipsDigits(text, j + 1, k);
    }
  }

  /** `Group\s+\d+` at i, with its number from j to k. */
  ghost predicate GroupMark(text: string, i: nat, j: nat, k: nat) {
    LabelAt(text, i, "group") && i + 5 < j && Spaces(text, i + 5, j) && Digits(text, j, k)
  }

  lemma {:induction false} DigitsEnd(text: string, j: nat)
    requires j < |text| && IsDigit(text[j])
    ensures Digits(text, j, SkipDigits(text, j))
    decreases |text| - j
  {
    if j + 1 < |text| && IsDigit(text[j + 1]) {
      DigitsEnd(text, j + 1);
    }
  }

  lemma GroupMarkAt(text: string, i: nat, j: nat, k: nat)
    requires GroupMark(text, i, j, k)
    ensures GroupAt(text, i) && HeadingNumber(text, i) == Number(text[j..k])
  {
    FirstWord(text, i + 5, j);
    SkipsDigits(text, j, k);
  }

  /** The scan matches where a group heading does, and reads all of its number. */
  lemma GroupAtExactly(text: string, i: nat)
    ensures GroupAt(text, i) <==> exists j: nat, k: nat :: GroupMark(text, i, j, k)
    ensures forall j: nat, k: nat :: GroupMark(text, i, j, k) ==>
              GroupAt(text, i) && HeadingNumber(text, i) == Number(text[j..k])
  {
    if GroupAt(text, i) {
      var j := SkipSpaces(text, i + 5);
      SkipsSpaces(text, i + 5);
      DigitsEnd(text, j);
      assert GroupMark(text, i, j, SkipDigits(text, j));
    }
    forall j: nat, k: nat | GroupMark(text, i, j, k)
      ensures GroupAt(text, i) && HeadingNumber(text, i) == Number(text[j..k])
    {
      GroupMarkAt(text, i, j, k);
    }
  }

  // ----- Category: and Words: -----

  /** `\s*([^\n]+)` after a label that ends at e, with the captured text starting at k. */
  ghost predicate Captures(text: string, e: nat, k: nat) {
    Spaces(text, e, k) && k < |text| && text[k] != '\n'
  }

  lemma {:induction false} LineEnds(text: string, i: nat)
    requires i <= |text|
    ensures var j := LineEnd(text, i); (forall m :: i <= m < j ==> text[m] != '\n') && (j < |text| ==> text[j] == '\n')
    decreases |text| - i
  {
    if i < |text| && text[i] != '\n' {
      LineEnds(text, i + 1);
    }
  }

  lemma {:induction false} LastInlineMeans(text: string, e: nat)
    ensures match LastInline(text, e)
            case Some(k) => text[k] != '\n' && forall m :: k < m < |text| ==> text[m] == '\n'
            case None => forall m :: e <= m < |text| ==> text[m] == '\n'
    decreases |text|
  {
    if e < |text| && text[|text| - 1] == '\n' {
      LastInlineMeans(text[..|text| - 1], e);
    }
  }

  /** The captured text: from the last place it can start, to the end of that line. */
  ghost predicate Captured(text: string, e: nat, value: string) {
    exists k: nat ::
      && Captures(text, e, k) && (forall m: nat :: Captures(text, e, m) ==> m <= k)
      && value == text[k..LineEnd(text, k)]
  }

  lemma LastStart(text: string, e: nat, k: nat)
    requires Captures(text, e, k) && forall m: nat :: k < m < |text| && Spaces(text, e, m) ==> text[m] == '\n'
    ensures Captured(text, e, text[k..LineEnd(text, k)])
  {
  }

  /** The scan reads a field where its label matches and something can be captured, and captures just that. */
  lemma FieldAtExactly(text: string, i: nat, marker: string)
    requires i <= |text|
    ensures var e := i + |marker|;
            match FieldAt(text, i, marker)
            case Some(value) => LabelAt(text, i, marker) && Captured(text, e, value)
            case None => LabelAt(text, i, marker) ==> forall k: nat :: !Captures(text, e, k)
  {
    if LabelAt(text, i, marker) {
      var e := i + |marker|;
      var k := SkipSpaces(text, e);
      SkipsSpaces(text, e);
      if k < |text| {
        assert text[k] != '\n';
        assert forall m: nat :: k < m < |text| ==> !Spaces(text, e, m);
        LastStart(text, e, k);
      } else {
        LastInlineMeans(text, e);
        match LastInline(text, e)
        case Some(last) => LastStart(text, e, last);
        case None =>
      }
    }
  }

  /** And it reads the first field of the chunk. */
  lemma {:induction false} FieldIsFirst(text: string, i: nat, marker: string)
    requires i <= |text|
    ensures match Field(text, i, marker)
            case Some(value) =>
              exists k :: i <= k <= |text| && FieldAt(text, k, marker) == Some(value)
                          && forall m :: i <= m < k ==> FieldAt(text, m, marker).None?
            case None => forall m :: i <= m <= |text| ==> FieldAt(text, m, marker).None?
    decreases |text| - i
  {
    if FieldAt(text, i, marker).None? && i < |text| {
      FieldIsFirst(text, i + 1, marker);
    }
  }

  // ----- the groups section -----

  lemma {:induction false} LabelIsFirst(text: string, i: nat, marker: string)
    requires i <= |text|
    ensures match FindLabel(text, i, marker)
            case Some(k) => forall m :: i <= m < k ==> !LabelAt(text, m, marker)
            case None => forall m :: i <= m <= |text| ==> !LabelAt(text, m, marker)
    decreases |text| - i
  {
    if !LabelAt(text, i, marker) && i < |text| {
      LabelIsFirst(text, i + 1, marker);
    }
  }

  /** `### GROUPS([\s\S]*?)### ANSWER` with its markers at i and j. */
  ghost predicate SectionMark(text: string, i: nat, j: nat) {
    LabelAt(text, i, "### groups") && i + 10 <= j && LabelAt(text, j, "### answer")
  }

  lemma SectionIs(text: string, k: nat, l: nat)
    requires FindLabel(text, 0, "### groups") == Some(k) && k + 10 <= |text|
    requires FindLabel(text, k + 10, "### answer") == Some(l)
    ensures SectionMark(text, k, l) && l <= |text| && GroupsSection(text) == text[k + 10..l]
    ensures forall i: nat, j: nat :: SectionMark(text, i, j) ==> k <= i
    ensures forall m: nat :: SectionMark(text, k, m) ==> l <= m
  {
    LabelIsFirst(text, 0, "### groups");
    LabelIsFirst(text, k + 10, "### answer");
  }

  lemma NoSection(text: string)
    requires match FindLabel(text, 0, "### groups")
             case None => true
             case Some(k) => k + 10 <= |text| && FindLabel(text, k + 10, "### answer").None?
    ensures GroupsSection(text) == text
    ensures forall i: nat, j: nat :: !SectionMark(text, i, j)
  {
    LabelIsFirst(text, 0, "### groups");
    if FindLabel(text, 0, "### groups").Some? {
      LabelIsFirst(text, FindLabel(text, 0, "### groups").value + 10, "### answer");
    }
  }

  /** The leftmost section, as short as it can be; the whole text where there is none. */
  lemma SectionExactly(text: string)
    ensures forall i: nat, j: nat :: SectionMark(text, i, j) ==>
              exists k: nat, l: nat :: && SectionMark(text, k, l) && k <= i && l <= |text|
                                       && GroupsSection(text) == text[k + 10..l]
                                       && forall m: nat :: SectionMark(text, k, m) ==> l <= m
    ensures (forall i: nat, j: nat :: !SectionMark(text, i, j)) ==> GroupsSection(text) == text
  {
    var first := FindLabel(text, 0, "### groups");
    if first.Some? && FindLabel(text, first.value + 10, "### answer").Some? {
      SectionIs(text, first.value, FindLabel(text, first.value + 10, "### answer").value);
    } else {
      NoSection(text);
    }
  }

  // ----- splitting before headings -----

  function Concat(chunks: seq<string>): string {
    if chunks == [] then "" else chunks[0] + Concat(chunks[1..])
  }

  lemma {:induction false} GroupIsFirst(text: string, i: nat)
    requires i <= |text|
    ensures match FindGroup(text, i)
            case Some(k) => forall m :: i <= m < k ==> !GroupAt(text, m)
            case None => forall m :: i <= m <= |text| ==> !GroupAt(text, m)
    decreases |text| - i
  {
    if !GroupAt(text, i) && i < |text| {
      GroupIsFirst(text, i + 1);
    }
  }

  /** A heading holds no g but its first letter, so the next heading starts after its first digit. */
  lemma HeadingIsWhole(text: string, i: nat, k: nat)
    requires GroupAt(text, i) && i < k && LabelAt(text, k, "group")
    ensures SkipSpaces(text, i + 5) < k
  {
    SkipsSpaces(text, i + 5);
    assert Lower(text[k + 0]) == "group"[0];
    assert forall m :: 0 <= m < 5 ==> Lower(text[i + m]) == "group"[m];
    assert "group"[1] != 'g' && "group"[2] != 'g' && "group"[3] != 'g' && "group"[4] != 'g';
  }

  /** A group heading in a part of a text is one in the text. */
  lemma HeadingOut(text: string, from: nat, to: nat, i: nat)
    requires from <= i <= to <= |text| && GroupAt(text[from..to], i - from)
    ensures GroupAt(text, i)
  {
    var part := text[from..to];
    var j := SkipSpaces(part, i - from + 5);
    SkipsSpaces(part, i - from + 5);
    LabelIn(text, from, to, i, "group");
    assert forall k :: 0 <= k < |part| ==> part[k] == text[from + k];
    assert Spaces(text, i + 5, from + j);
    FirstWord(text, i + 5, from + j);
  }

  /** And the other way round, when the part has its first digit. */
  lemma HeadingIn(text: string, from: nat, to: nat, i: nat)
    requires from <= i <= to <= |text| && GroupAt(text, i) && SkipSpaces(text, i + 5) < to
    ensures GroupAt(text[from..to], i - from)
  {
    var part, j := text[from..to], SkipSpaces(text, i + 5);
    SkipsSpaces(text, i + 5);
    LabelIn(text, from, to, i, "group");
    assert forall k :: 0 <= k < |part| ==> part[k] == text[from + k];
    assert Spaces(part, i - from + 5, j - from);
    FirstWord(part, i - from + 5, j - from);
  }

  lemma LabelIn(text: string, from: nat, to: nat, i: nat, marker: string)
    requires from <= i <= to <= |text| && i + |marker| <= to
    ensures LabelAt(text[from..to], i - from, marker) <==> LabelAt(text, i, marker)
  {
    forall k | 0 <= k < |marker|
      ensures Lower(text[from..to][i - from + k]) == marker[k] <==> Lower(text[i + k]) == marker[k]
    {
      assert text[from..to][i - from + k] == text[i + k];
    }
  }

  lemma FirstHasOne(text: string, i: nat)
    requires text != "" && FindGroup(text, 1) == Some(i)
    ensures NoHeadingAfter(text[..i])
    ensures GroupAt(text, 0) ==> GroupAt(text[..i], 0)
    ensures GroupAt(text[i..], 0)
  {
    GroupIsFirst(text, 1);
    forall k | 1 <= k <= i ensures !GroupAt(text[0..i], k) {
      if GroupAt(text[0..i], k) {
        HeadingOut(text, 0, i, k);
      }
    }
    if GroupAt(text, 0) {
      HeadingIsWhole(text, 0, i);
      HeadingIn(text, 0, i, 0);
    }
    HeadingIn(text, i, |text|, i);
    assert text[0..i] == text[..i] && text[i..|text|] == text[i..];
  }

  ghost predicate NoHeadingAfter(chunk: string) {
    forall k :: 1 <= k <= |chunk| ==> !GroupAt(chunk, k)
  }

  /** Chunks of a text, cut before every group heading and nowhere else. */
  ghost predicate CutAtHeadings(text: string, chunks: seq<string>) {
    && chunks != [] && Concat(chunks) == text
    && (forall i :: 0 < i < |chunks| ==> GroupAt(chunks[i], 0))
    && (forall i :: 0 <= i < |chunks| ==> NoHeadingAfter(chunks[i]))
    && (GroupAt(text, 0) ==> GroupAt(chunks[0], 0))
  }

  lemma CutFirst(first: string, rest: string, chunks: seq<string>)
    requires NoHeadingAfter(first) && GroupAt(rest, 0) && CutAtHeadings(rest, chunks)
    requires GroupAt(first + rest, 0) ==> GroupAt(first, 0)
    ensures CutAtHeadings(first + rest, [first] + chunks)
  {
    assert ([first] + chunks)[1..] == chunks;
  }

  lemma OneChunk(text: string)
    requires text != "" ==> FindGroup(text, 1).None?
    ensures Chunks(text) == [text] && CutAtHeadings(text, [text])
  {
    if text != "" {
      GroupIsFirst(text, 1);
    }
    assert [text][1..] == [] && text + "" == text;
  }

  lemma ChunksStep(text: string, i: nat)
    requires text != "" && FindGroup(text, 1) == Some(i)
    ensures Chunks(text) == [text[..i]] + Chunks(text[i..]) && text == text[..i] + text[i..]
  {
  }

  /** So whatever holds a heading, an aside included, ends there. */
  lemma {:induction false} SplitsExactly(text: string)
    ensures CutAtHeadings(text, Chunks(text))
    decreases |text|
  {
    if text == "" || FindGroup(text, 1).None? {
      OneChunk(text);
    } else {
      var i := FindGroup(text, 1).value;
      FirstHasOne(text, i);
      SplitsExactly(text[i..]);
      ChunksStep(text, i);
      CutFirst(text[..i], text[i..], Chunks(text[i..]));
    }
  }

  // ----- what any text gives -----

  ghost predicate Trimmed(s: string) {
    s != "" ==> !IsSpace(s[0]) && !IsSpace(s[|s| - 1])
  }

  lemma {:induction false} TrimEndTrims(s: string)
    requires s != "" ==> !IsSpace(s[0])
    ensures Trimmed(TrimEnd(s))
  {
    if s != "" && IsSpace(s[|s| - 1]) {
      TrimEndTrims(s[..|s| - 1]);
    }
  }

  lemma {:induction false} TrimTrims(s: string)
    ensures Trimmed(Trim(s))
  {
    if s != "" && IsSpace(s[0]) {
      TrimTrims(s[1..]);
    } else {
      TrimEndTrims(s);
    }
  }

  /** Exactly four words, none empty, with no space around them. */
  ghost predicate FourTrimmed(words: seq<string>) {
    |words| == GROUP_SIZE && forall k :: 0 <= k < GROUP_SIZE ==> words[k] != "" && Trimmed(words[k])
  }

  lemma {:induction false} CleanedAreTrimmed(parts: seq<string>, strip: string)
    ensures forall k :: 0 <= k < |Cleaned(parts, strip)| ==>
                          Cleaned(parts, strip)[k] != "" && Trimmed(Cleaned(parts, strip)[k])
  {
    if parts != [] {
      TrimTrims(Strip(parts[0], strip));
      CleanedAreTrimmed(parts[1..], strip);
    }
  }

  /** Every slot that was filled holds four trimmed words, and every category is trimmed. */
  ghost predicate WellRead(g: Gathered) {
    && (forall i :: 0 <= i < |g.slots| && g.slots[i].Some? ==> FourTrimmed(g.slots[i].value))
    && (forall n :: n in g.categories ==> Trimmed(g.categories[n]))
  }

  lemma WordsWellRead(g: Gathered, n: nat, line: string)
    requires WellRead(g)
    ensures WellRead(ReadWords(g, n, line))
  {
    CleanedAreTrimmed(SplitOn(StripParentheticals(line, 0), ','), "`*");
  }

  lemma ChunkWellRead(g: Gathered, chunk: string)
    requires WellRead(g)
    ensures WellRead(ReadChunk(g, chunk))
  {
    match FindGroup(chunk, 0)
    case None =>
    case Some(i) =>
      var n := HeadingNumber(chunk, i);
      var g1 := g.(maxGroupNum := if n > g.maxGroupNum then n else g.maxGroupNum);
      var g2 := match Field(chunk, 0, "category:")
        case Some(category) => g1.(categories := g1.categories[n := Trim(category)])
        case None => g1;
      if Field(chunk, 0, "category:").Some? {
        TrimTrims(Field(chunk, 0, "category:").value);
      }
      match Field(chunk, 0, "words:")
      case Some(line) => WordsWellRead(g2, n, line);
      case None =>
  }

  lemma {:induction false} ChunksWellRead(g: Gathered, chunks: seq<string>)
    requires WellRead(g)
    ensures WellRead(ReadChunks(g, chunks))
    decreases |chunks|
  {
    if chunks != [] {
      ChunkWellRead(g, chunks[0]);
      ChunksWellRead(ReadChunk(g, chunks[0]), chunks[1..]);
    }
  }

  lemma {:induction false} LinesWellRead(lines: seq<string>)
    ensures forall i :: 0 <= i < |AnswerLines(lines)| ==> FourTrimmed(AnswerLines(lines)[i])
    decreases |lines|
  {
    if lines != [] {
      LinesWellRead(lines[..|lines| - 1]);
      CleanedAreTrimmed(SplitOn(Trim(lines[|lines| - 1]), ','), "`*#-");
    }
  }

  lemma TrimmedStays(s: string)
    requires Trimmed(s)
    ensures Trim(s) == s
  {
  }

  lemma {:induction false} FilledFour(slots: seq<Option<seq<string>>>)
    requires forall i :: 0 <= i < |slots| && slots[i].Some? ==> FourTrimmed(slots[i].value)
    ensures forall i :: 0 <= i < |Filled(slots)| ==> FourTrimmed(Filled(slots)[i])
  {
    if slots != [] {
      FilledFour(slots[1..]);
    }
  }

  /**
   Whatever the text: every proposal and every group has exactly four words, none of them
   empty, and no word and no category has space around it.
   */
  lemma EveryGroupIsFour(text: string)
    ensures var r := Parse(text);
            && (forall i :: 0 <= i < |r.proposalWords| && r.proposalWords[i].Some? ==>
                  FourTrimmed(r.proposalWords[i].value))
            && (forall i :: 0 <= i < |r.groups| ==> FourTrimmed(r.groups[i]))
            && (forall n :: n in r.categoryByGroup ==> Trimmed(r.categoryByGroup[n]))
  {
    ChunksWellRead(NOTHING, Chunks(GroupsSection(text)));
    var g := ReadChunks(NOTHING, Chunks(GroupsSection(text)));
    if AnswerBlock(text).Some? {
      LinesWellRead(SplitOn(Trim(AnswerBlock(text).value.0), '\n'));
    }
    FilledFour(g.slots);
    var slots := if g.slots != [] then g.slots else AllFilled(AnswerGroups(text));
    forall i | 0 <= i < |slots| && slots[i].Some? ensures FourTrimmed(TrimSlots(slots)[i].value) {
      forall k | 0 <= k < GROUP_SIZE ensures Trim(slots[i].value[k]) == slots[i].value[k] {
        TrimmedStays(slots[i].value[k]);
      }
    }
  }
}
