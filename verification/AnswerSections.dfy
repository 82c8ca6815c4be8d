/**
 What the parser makes of a whole answer that is written less tidily than the printer
 writes it (packages/answer-grammar/src/parse-answer.ts): groups in any order, repeated or
 without words, lines with asides, emphasis and the wrong number of words, answer lines with
 bullets, with or without the two section markers. The result is told from what was written.
 */
module AnswerSections {
  import opened Options
  import opened AnswerGrammar
  import opened GrammarScans
  import opened AnswerRoundTrip
  import opened AnswerAsides

  /** A group as it is written: its number, and its words line, if it has one. */
  datatype Shown = Shown(n: nat, items: Option<seq<Item>>)

  function TextOf(categories: map<nat, string>, s: Shown): string
    requires s.items.Some? ==> s.items.value != []
  {
    match s.items
    case Some(items) => Chunk(categories, s.n, ItemsLine(items))
    case None => Head(s.n) + (CategoryLine(categories, s.n) + "\n")
  }

  ghost predicate CleanShown(categories: map<nat, string>, s: Shown) {
    match s.items
    case Some(items) => CleanItems(categories, s.n, items)
    case None => Named(categories, s.n) ==> CleanCategory(categories[s.n])
  }

  ghost predicate AllClean(categories: map<nat, string>, groups: seq<Shown>) {
    forall i :: 0 <= i < |groups| ==> CleanShown(categories, groups[i])
  }

  function Texts(categories: map<nat, string>, groups: seq<Shown>): (r: seq<string>)
    requires forall i :: 0 <= i < |groups| && groups[i].items.Some? ==> groups[i].items.value != []
    ensures |r| == |groups|
    decreases |groups|
  {
    if groups == [] then []
    else Texts(categories, groups[..|groups| - 1]) + [TextOf(categories, groups[|groups| - 1])]
  }

  // ----- what was written -----

  /** The words of the last group of that number that has four. */
  function WordsFor(groups: seq<Shown>, n: nat): Option<seq<string>>
    decreases |groups|
  {
    if groups == [] then None
    else
      var s := groups[|groups| - 1];
      if s.n == n && s.items.Some? && |s.items.value| == GROUP_SIZE then Some(WordsOf(s.items.value))
      else WordsFor(groups[..|groups| - 1], n)
  }

  ghost predicate Mentioned(groups: seq<Shown>, n: nat) {
    exists i :: 0 <= i < |groups| && groups[i].n == n
  }

  ghost predicate CountOff(groups: seq<Shown>, n: nat) {
    exists i :: 0 <= i < |groups| && groups[i].n == n && groups[i].items.Some? && |groups[i].items.value| != GROUP_SIZE
  }

  ghost predicate AnyCountOff(groups: seq<Shown>) {
    exists i :: 0 <= i < |groups| && groups[i].items.Some? && |groups[i].items.value| != GROUP_SIZE
  }

  ghost predicate AnyAside(groups: seq<Shown>) {
    exists i :: 0 <= i < |groups| && groups[i].items.Some? && SomeAside(groups[i].items.value)
  }

  // ----- a group without a words line -----

  lemma WordlessNoGroup(categories: map<nat, string>, n: nat)
    requires Named(categories, n) ==> CleanCategory(categories[n])
    ensures NoGroup(CategoryLine(categories, n) + "\n")
  {
    if Named(categories, n) {
      var c := categories[n];
      NoGroupSpace(c, "\n" + "\n");
      CategoryPrefixNoGroup(c + ("\n" + "\n"));
      assert CategoryLine(categories, n) + "\n" == "Category: " + (c + ("\n" + "\n"));
    } else {
      assert "" + "\n" == "\n";
      NoGroupPrefix("\n", "");
      assert "\n" + "" == "\n";
    }
  }

  lemma WordlessNoLabel(categories: map<nat, string>, n: nat)
    requires Named(categories, n) ==> CleanCategory(categories[n])
    ensures NoLabel(Head(n) + (CategoryLine(categories, n) + "\n"), "words:")
  {
    var rest := CategoryLine(categories, n) + "\n";
    NoLabelPrefix("\n" + "\n", "", "words:");
    assert "\n" + "\n" + "" == "\n" + "\n";
    NoLabelPrefix("\n", "", "words:");
    assert "\n" + "" == "\n";
    if Named(categories, n) {
      var c := categories[n];
      NoLabelConcat(c, "\n" + "\n", "words:");
      NoLabelPrefix("Category: ", c + ("\n" + "\n"), "words:");
      assert rest == "Category: " + (c + ("\n" + "\n"));
    } else {
      assert rest == "\n";
    }
    HeadLetters(n);
    NoLabelPrefix(Head(n), rest, "words:");
  }

  lemma WordlessCategory(categories: map<nat, string>, n: nat)
    requires Named(categories, n) ==> CleanCategory(categories[n])
    ensures Field(Head(n) + (CategoryLine(categories, n) + "\n"), 0, "category:")
            == if Named(categories, n) then Some(categories[n]) else None
  {
    if Named(categories, n) {
      CategoryShown(categories[n], n, "\n");
    } else {
      assert "" + "\n" == "\n" && "\n" + "" == "\n";
      NoLabelPrefix("\n", "", "category:");
      HeadLetters(n);
      NoLabelPrefix(Head(n), "\n", "category:");
      NoField(Head(n) + "\n", "category:");
    }
  }

  lemma ReadWordless(g: Gathered, categories: map<nat, string>, n: nat)
    requires Named(categories, n) ==> CleanCategory(categories[n])
    ensures ReadChunk(g, Head(n) + (CategoryLine(categories, n) + "\n")) == Headed(g, categories, n)
  {
    var text := Head(n) + (CategoryLine(categories, n) + "\n");
    HeadIsHeading(n, CategoryLine(categories, n) + "\n");
    FindGroupIs(text, 0, 0);
    WordlessCategory(categories, n);
    WordlessNoLabel(categories, n);
    NoField(text, "words:");
    if Named(categories, n) {
      TightTrim(categories[n]);
    }
  }

  lemma TextIsChunk(categories: map<nat, string>, s: Shown)
    requires CleanShown(categories, s)
    ensures IsChunk(TextOf(categories, s)) && Unmarked(TextOf(categories, s))
  {
    match s.items
    case Some(items) =>
      ItemsLineIsClean(categories, s.n, items);
      ChunkIsChunk(categories, s.n, ItemsLine(items));
      ChunkUnmarked(categories, s.n, ItemsLine(items));
    case None =>
      var body := CategoryLine(categories, s.n) + "\n";
      HeadLetters(s.n);
      HeadIsHeading(s.n, body);
      WordlessNoGroup(categories, s.n);
      NoGroupPrefix(Head(s.n)[1..], body);
      DropOne(Head(s.n), body);
      WordlessUnmarked(categories, s.n);
  }

  lemma WordlessUnmarked(categories: map<nat, string>, n: nat)
    requires Named(categories, n) ==> CleanCategory(categories[n])
    ensures Unmarked(Head(n) + (CategoryLine(categories, n) + "\n"))
  {
    HeadUnmarked(n);
    CategoryUnmarked(categories, n);
    UnmarkedConcat(CategoryLine(categories, n), "\n");
    UnmarkedConcat(Head(n), CategoryLine(categories, n) + "\n");
  }

  // ----- what is gathered from the groups read so far -----

  function SlotAt(slots: Slots, n: nat): Option<seq<string>> {
    if 0 < n <= |slots| then slots[n - 1] else None
  }

  ghost predicate SlotsOk(groups: seq<Shown>, slots: Slots) {
    && (forall n: nat :: 0 < n ==> SlotAt(slots, n) == WordsFor(groups, n))
    && (slots != [] ==> slots[|slots| - 1].Some?)
  }

  ghost predicate HeadsOk(categories: map<nat, string>, groups: seq<Shown>, shown: map<nat, string>, highest: nat) {
    && (forall n: nat :: n in shown <==> Named(categories, n) && Mentioned(groups, n))
    && (forall n: nat :: n in shown ==> shown[n] == categories[n])
    && (forall i :: 0 <= i < |groups| ==> groups[i].n <= highest)
    && (highest == 0 || Mentioned(groups, highest))
  }

  ghost predicate CountsOk(groups: seq<Shown>, wrongCount: set<nat>) {
    forall n: nat :: n in wrongCount <==> CountOff(groups, n)
  }

  ghost function Flags(groups: seq<Shown>): set<Issue> {
    (if AnyAside(groups) then {ParentheticalStripped} else {}) + (if AnyCountOff(groups) then {GroupCountOff} else {})
  }

  ghost predicate GatheredOk(categories: map<nat, string>, groups: seq<Shown>, g: Gathered) {
    && SlotsOk(groups, g.slots) && HeadsOk(categories, groups, g.categories, g.maxGroupNum)
    && CountsOk(groups, g.wrongCount) && g.issues == Flags(groups)
  }

  lemma SetSlotAt(slots: Slots, n: nat, words: seq<string>)
    ensures forall m: nat :: 0 < m ==>
                               SlotAt(SetSlot(slots, n, words), m) == if m == n then Some(words) else SlotAt(slots, m)
    ensures (slots != [] ==> slots[|slots| - 1].Some?) && SetSlot(slots, n, words) != [] ==>
              SetSlot(slots, n, words)[|SetSlot(slots, n, words)| - 1].Some?
  {
  }

  lemma Grows(groups: seq<Shown>, s: Shown, n: nat)
    ensures Mentioned(groups + [s], n) <==> Mentioned(groups, n) || s.n == n
    ensures CountOff(groups + [s], n) <==>
            CountOff(groups, n) || (s.n == n && s.items.Some? && |s.items.value| != GROUP_SIZE)
    ensures WordsFor(groups + [s], n)
            == if s.n == n && s.items.Some? && |s.items.value| == GROUP_SIZE then Some(WordsOf(s.items.value))
               else WordsFor(groups, n)
  {
    var more := groups + [s];
    assert more[|groups|] == s && more[..|groups|] == groups;
    assert forall i :: 0 <= i < |groups| ==> more[i] == groups[i];
  }

  lemma FlagsGrow(groups: seq<Shown>, s: Shown)
    ensures AnyAside(groups + [s]) <==> AnyAside(groups) || (s.items.Some? && SomeAside(s.items.value))
    ensures AnyCountOff(groups + [s]) <==> AnyCountOff(groups) || (s.items.Some? && |s.items.value| != GROUP_SIZE)
  {
    var more := groups + [s];
    assert more[|groups|] == s;
    assert forall i :: 0 <= i < |groups| ==> more[i] == groups[i];
  }

  lemma HeadsMore(categories: map<nat, string>, groups: seq<Shown>, g: Gathered, s: Shown)
    requires HeadsOk(categories, groups, g.categories, g.maxGroupNum)
    ensures var h := Headed(g, categories, s.n); HeadsOk(categories, groups + [s], h.categories, h.maxGroupNum)
  {
    forall n: nat ensures Mentioned(groups + [s], n) <==> Mentioned(groups, n) || s.n == n {
      Grows(groups, s, n);
    }
  }

  predicate Four(s: Shown) {
    s.items.Some? && |s.items.value| == GROUP_SIZE
  }

  predicate Off(s: Shown) {
    s.items.Some? && |s.items.value| != GROUP_SIZE
  }

  lemma SlotsMore(groups: seq<Shown>, slots: Slots, s: Shown)
    requires SlotsOk(groups, slots)
    ensures SlotsOk(groups + [s], if Four(s) then SetSlot(slots, s.n, WordsOf(s.items.value)) else slots)
  {
    forall n: nat
      ensures WordsFor(groups + [s], n)
              == if s.n == n && Four(s) then Some(WordsOf(s.items.value)) else WordsFor(groups, n)
    {
      Grows(groups, s, n);
    }
    if Four(s) {
      SetSlotAt(slots, s.n, WordsOf(s.items.value));
    }
  }

  lemma CountsMore(groups: seq<Shown>, wrongCount: set<nat>, s: Shown)
    requires CountsOk(groups, wrongCount)
    ensures CountsOk(groups + [s], wrongCount + if Off(s) then {s.n} else {})
  {
    forall n: nat ensures CountOff(groups + [s], n) <==> CountOff(groups, n) || (s.n == n && Off(s)) {
      Grows(groups, s, n);
    }
  }

  lemma FlagsMore(groups: seq<Shown>, s: Shown)
    ensures Flags(groups + [s])
            == Flags(groups) + (if s.items.Some? && SomeAside(s.items.value) then {ParentheticalStripped} else {})
               + (if Off(s) then {GroupCountOff} else {})
  {
    FlagsGrow(groups, s);
  }

  /** What reading one more group does, by its words line. */
  lemma ReadShown(categories: map<nat, string>, g: Gathered, s: Shown)
    requires CleanShown(categories, s)
    ensures var h := Headed(g, categories, s.n);
            ReadChunk(g, TextOf(categories, s))
            == match s.items
               case None => h
               case Some(items) =>
                 var issues := g.issues + if SomeAside(items) then {ParentheticalStripped} else {};
                 if |items| == GROUP_SIZE then h.(issues := issues, slots := SetSlot(g.slots, s.n, WordsOf(items)))
                 else h.(issues := issues + {GroupCountOff}, wrongCount := g.wrongCount + {s.n})
  {
    match s.items
    case None => ReadWordless(g, categories, s.n);
    case Some(items) =>
      ItemsLineIsClean(categories, s.n, items);
      ReadLine(g, categories, s.n, ItemsLine(items));
      ReadItems(Headed(g, categories, s.n), s.n, items);
  }

  lemma ReadShownOk(categories: map<nat, string>, groups: seq<Shown>, g: Gathered, s: Shown) returns (t: Gathered)
    requires CleanShown(categories, s) && GatheredOk(categories, groups, g)
    ensures t == ReadChunk(g, TextOf(categories, s)) && GatheredOk(categories, groups + [s], t)
  {
    t := ReadChunk(g, TextOf(categories, s));
    ReadShown(categories, g, s);
    HeadsMore(categories, groups, g, s);
    SlotsMore(groups, g.slots, s);
    CountsMore(groups, g.wrongCount, s);
    FlagsMore(groups, s);
    var none: set<nat> := {};
    assert g.wrongCount + none == g.wrongCount;
  }

  lemma {:induction false} ReadAllOk(categories: map<nat, string>, groups: seq<Shown>) returns (g: Gathered)
    requires AllClean(categories, groups)
    ensures forall i :: 0 <= i < |groups| && groups[i].items.Some? ==> groups[i].items.value != []
    ensures g == ReadChunks(NOTHING, Texts(categories, groups)) && GatheredOk(categories, groups, g)
    ensures AllChunks(Texts(categories, groups)) && Unmarked(Concat(Texts(categories, groups)))
    decreases |groups|
  {
    forall i | 0 <= i < |groups| && groups[i].items.Some? ensures groups[i].items.value != [] {
      assert CleanShown(categories, groups[i]);
    }
    if groups == [] {
      g := NOTHING;
    } else {
      var front, s := groups[..|groups| - 1], groups[|groups| - 1];
      assert groups == front + [s] && CleanShown(categories, s);
      var before := ReadAllOk(categories, front);
      g := ReadShownOk(categories, front, before, s);
      ReadAppend(NOTHING, Texts(categories, front), [TextOf(categories, s)]);
      ReadOne(before, TextOf(categories, s));
      TextIsChunk(categories, s);
      MoreChunks(Texts(categories, front), TextOf(categories, s));
    }
  }

  // ----- answer lines -----

  /** A line of the answer section: words in marks after a bullet, or not. */
  datatype AnswerLine = AnswerLine(bullet: string, items: seq<Item>)

  ghost predicate CleanAnswer(line: AnswerLine) {
    && (line.bullet == "" || line.bullet == "- " || line.bullet == "* ")
    && line.items != [] && PlainItems(line.items) && !SomeAside(line.items)
  }

  function AnswerText(line: AnswerLine): string
    requires line.items != []
  {
    line.bullet + Dressed(line.items[0]) + BareTail(line.items[1..])
  }

  function AnswerTexts(lines: seq<AnswerLine>): (r: seq<string>)
    requires forall i :: 0 <= i < |lines| ==> lines[i].items != []
    ensures |r| == |lines|
    decreases |lines|
  {
    if lines == [] then [] else AnswerTexts(lines[..|lines| - 1]) + [AnswerText(lines[|lines| - 1])]
  }

  /** The words of the lines that have four. */
  function FourWords(lines: seq<AnswerLine>): seq<seq<string>>
    decreases |lines|
  {
    if lines == [] then []
    else
      var items := lines[|lines| - 1].items;
      FourWords(lines[..|lines| - 1]) + if |items| == GROUP_SIZE then [WordsOf(items)] else []
  }

  lemma BulletStrips(bullet: string)
    requires bullet == "" || bullet == "- " || bullet == "* "
    ensures Strip(bullet, "`*#-") == (if bullet == "" then "" else " ") && ',' !in bullet
  {
    StripNothing(" ", "`*#-");
    if bullet != "" {
      assert bullet == [bullet[0]] + " ";
      StripConcat([bullet[0]], " ", "`*#-");
      assert [bullet[0]][1..] == "";
    }
  }

  lemma BulletGoes(line: AnswerLine)
    requires CleanAnswer(line)
    ensures ',' !in line.bullet + Dressed(line.items[0])
    ensures Trim(Strip(line.bullet + Dressed(line.items[0]), "`*#-")) == line.items[0].word
  {
    var first := line.items[0];
    DressedIs(first);
    BulletStrips(line.bullet);
    StripConcat(line.bullet, Dressed(first), "`*#-");
    Undressed(first, "`*#-");
    TrimBoth(Strip(line.bullet, "`*#-"), first.word, "");
    assert first.word + "" == first.word;
  }

  lemma {:induction false} BareTailIs(items: seq<Item>)
    requires PlainItems(items) && !SomeAside(items)
    ensures Lacks(BareTail(items), "\n#")
    ensures BareTail(items) != "" ==> !IsSpace(BareTail(items)[|BareTail(items)| - 1])
  {
    if items != [] {
      SomeAsideFirst(items);
      BareTailIs(items[1..]);
      DressedIsTight(items[0]);
      JoinedEnd(Dressed(items[0]), BareTail(items[1..]));
      assert Dressed(items[0]) + Spacer(items[0]) + BareTail(items[1..]) == Dressed(items[0]) + BareTail(items[1..]);
    }
  }

  lemma AnswerTextIs(line: AnswerLine)
    requires CleanAnswer(line)
    ensures Tight(AnswerText(line)) && Lacks(AnswerText(line), "\n#")
  {
    var items := line.items;
    SomeAsideFirst(items);
    DressedIs(items[0]);
    BareTailIs(items[1..]);
    DressedIsTight(items[0]);
    var front, tail := line.bullet + Dressed(items[0]), BareTail(items[1..]);
    assert Lacks(front, "\n#") && Tight(front) by {
      assert Lacks(line.bullet, "\n#");
    }
    assert AnswerText(line) == front + tail;
  }

  lemma DressedIsTight(i: Item)
    requires PlainItem(i)
    ensures Tight(Dressed(i)) && Lacks(Dressed(i), "\n#")
  {
    DressedIs(i);
  }

  lemma AnswerTextReads(line: AnswerLine)
    requires CleanAnswer(line)
    ensures Items(Trim(AnswerText(line)), "`*#-") == WordsOf(line.items)
  {
    BulletGoes(line);
    BareParses(line.bullet + Dressed(line.items[0]), line.items, "`*#-");
    AnswerTextIs(line);
    TightTrim(AnswerText(line));
  }

  lemma {:induction false} AnswerTextsRead(lines: seq<AnswerLine>)
    requires forall i :: 0 <= i < |lines| ==> CleanAnswer(lines[i])
    ensures forall i :: 0 <= i < |lines| ==> lines[i].items != []
    ensures forall i :: 0 <= i < |lines| ==> Tight(AnswerTexts(lines)[i]) && Lacks(AnswerTexts(lines)[i], "\n#")
    ensures AnswerLines(AnswerTexts(lines)) == FourWords(lines)
    decreases |lines|
  {
    if lines != [] {
      var front, last := lines[..|lines| - 1], lines[|lines| - 1];
      assert lines == front + [last] && CleanAnswer(last);
      AnswerTextsRead(front);
      AnswerTextIs(last);
      AnswerTextReads(last);
      assert AnswerTexts(lines)[..|front|] == AnswerTexts(front);
    }
  }

  // ----- the whole text -----

  /** With both sections, or, when there is no answer section, without any marker. */
  function Written(categories: map<nat, string>, groups: seq<Shown>, answer: Option<seq<AnswerLine>>): string
    requires forall i :: 0 <= i < |groups| && groups[i].items.Some? ==> groups[i].items.value != []
    requires answer.Some? ==> forall i :: 0 <= i < |answer.value| ==> answer.value[i].items != []
  {
    var section := "\n" + Concat(Texts(categories, groups));
    match answer
    case None => section
    case Some(lines) => Sections(section, AfterMarker(lines))
  }

  ghost predicate CleanText(categories: map<nat, string>, groups: seq<Shown>, answer: Option<seq<AnswerLine>>) {
    && groups != [] && AllClean(categories, groups)
    && (answer.Some? ==> forall i :: 0 <= i < |answer.value| ==> CleanAnswer(answer.value[i]))
  }

  lemma CleanIsWritable(categories: map<nat, string>, groups: seq<Shown>, answer: Option<seq<AnswerLine>>)
    requires CleanText(categories, groups, answer)
    ensures forall i :: 0 <= i < |groups| && groups[i].items.Some? ==> groups[i].items.value != []
    ensures answer.Some? ==> forall i :: 0 <= i < |answer.value| ==> answer.value[i].items != []
  {
    forall i | 0 <= i < |groups| && groups[i].items.Some? ensures groups[i].items.value != [] {
      assert CleanShown(categories, groups[i]);
    }
  }

  function Answered(answer: Option<seq<AnswerLine>>): seq<seq<string>> {
    if answer.Some? then FourWords(answer.value) else []
  }

  /** What follows the answer marker. */
  function AfterMarker(lines: seq<AnswerLine>): string
    requires forall i :: 0 <= i < |lines| ==> lines[i].items != []
  {
    "\n" + Join(AnswerTexts(lines), "\n")
  }

  lemma AfterMarkerReads(lines: seq<AnswerLine>)
    requires forall i :: 0 <= i < |lines| ==> CleanAnswer(lines[i])
    ensures forall i :: 0 <= i < |lines| ==> lines[i].items != []
    ensures '#' !in AfterMarker(lines) && AnswerLines(SplitOn(Trim(AfterMarker(lines)), '\n')) == FourWords(lines)
  {
    AnswerTextsRead(lines);
    var texts := AnswerTexts(lines);
    if texts == [] {
      assert "\n" + "" == "\n";
      NoAnswerLines();
    } else {
      JoinedLines(texts);
      TightTrim(Join(texts, "\n"));
    }
  }

  lemma AnswerRead(section: string, lines: seq<AnswerLine>)
    requires Unmarked(section) && forall i :: 0 <= i < |lines| ==> CleanAnswer(lines[i])
    ensures forall i :: 0 <= i < |lines| ==> lines[i].items != []
    ensures var text := Sections(section, AfterMarker(lines));
            && GroupsSection(text) == section && AnswerGroups(text) == FourWords(lines)
            && AnswerBlock(text).Some? && !AnswerBlock(text).value.1
  {
    AfterMarkerReads(lines);
    SectionFound(section, AfterMarker(lines));
    AnswerFound(section, AfterMarker(lines));
  }

  lemma NoMarkers(text: string)
    requires Unmarked(text)
    ensures GroupsSection(text) == text && AnswerBlock(text).None?
  {
    forall k | 0 <= k <= |text| ensures AnswerAt(text, k).None? {
      OneHashNoAnswer(text, k);
    }
    FindAnswerNone(text, 0);
    NoneBeforeUnmarked(text, "", "### groups");
    assert text + "" == text;
    LabelNone(text, 0, "### groups");
  }

  lemma {:induction false} LabelNone(text: string, i: nat, marker: string)
    requires i <= |text| && forall k :: i <= k <= |text| ==> !LabelAt(text, k, marker)
    ensures FindLabel(text, i, marker).None?
    decreases |text| - i
  {
    if i < |text| {
      LabelNone(text, i + 1, marker);
    }
  }

  lemma GroupsRead(categories: map<nat, string>, groups: seq<Shown>) returns (section: string, g: Gathered)
    requires groups != [] && AllClean(categories, groups)
    ensures forall i :: 0 <= i < |groups| && groups[i].items.Some? ==> groups[i].items.value != []
    ensures section == "\n" + Concat(Texts(categories, groups)) && Unmarked(section)
    ensures g == ReadChunks(NOTHING, Chunks(section)) && GatheredOk(categories, groups, g)
  {
    g := ReadAllOk(categories, groups);
    var chunks := Texts(categories, groups);
    section := "\n" + Concat(chunks);
    UnmarkedConcat("\n", Concat(chunks));
    SectionSplits(chunks);
    ReadAppend(NOTHING, ["\n"], chunks);
    ReadOne(NOTHING, "\n");
    FindGroupNone("\n", 0);
  }

  lemma WrittenReads(categories: map<nat, string>, groups: seq<Shown>, answer: Option<seq<AnswerLine>>)
    returns (text: string, g: Gathered)
    requires CleanText(categories, groups, answer)
    ensures forall i :: 0 <= i < |groups| && groups[i].items.Some? ==> groups[i].items.value != []
    ensures answer.Some? ==> forall i :: 0 <= i < |answer.value| ==> answer.value[i].items != []
    ensures text == Written(categories, groups, answer) && GatheredOk(categories, groups, g)
    ensures Parse(text) == Finish(g, Answered(answer), false)
  {
    CleanIsWritable(categories, groups, answer);
    var section;
    section, g := GroupsRead(categories, groups);
    text := Written(categories, groups, answer);
    match answer
    case Some(lines) => AnswerRead(section, lines);
    case None => NoMarkers(section);
  }

  // ----- what comes out -----

  /** A group number up to the highest one mentioned that never got four words, and for no wrong count. */
  ghost predicate SomeUnclassified(groups: seq<Shown>) {
    exists n: nat, i ::
      0 < n && 0 <= i < |groups| && n <= groups[i].n && WordsFor(groups, n).None? && !CountOff(groups, n)
  }

  lemma {:induction false} UnexplainedMeans(g: Gathered, n: nat)
    ensures Unexplained(g, n) <==> exists m: nat :: 0 < m <= n && SlotAt(g.slots, m).None? && m !in g.wrongCount
  {
    if n > 0 {
      UnexplainedMeans(g, n - 1);
      assert SlotAt(g.slots, n).None? <==> n > |g.slots| || g.slots[n - 1].None?;
    }
  }

  lemma UnclassifiedMeans(categories: map<nat, string>, groups: seq<Shown>, g: Gathered)
    requires groups != [] && GatheredOk(categories, groups, g)
    ensures Unexplained(g, g.maxGroupNum) <==> SomeUnclassified(groups)
  {
    UnexplainedMeans(g, g.maxGroupNum);
    if Unexplained(g, g.maxGroupNum) {
      var m: nat :| 0 < m <= g.maxGroupNum && SlotAt(g.slots, m).None? && m !in g.wrongCount;
      var i :| 0 <= i < |groups| && groups[i].n == g.maxGroupNum;
      assert WordsFor(groups, m).None? && !CountOff(groups, m) && m <= groups[i].n;
    }
    if SomeUnclassified(groups) {
      var n: nat, i :|
        0 < n && 0 <= i < |groups| && n <= groups[i].n && WordsFor(groups, n).None? && !CountOff(groups, n);
      assert SlotAt(g.slots, n).None? && n !in g.wrongCount;
    }
  }

  ghost predicate CleanWords(words: seq<string>) {
    forall k :: 0 <= k < |words| ==> Tight(words[k])
  }

  lemma {:induction false} WordsForClean(categories: map<nat, string>, groups: seq<Shown>, n: nat)
    requires AllClean(categories, groups)
    ensures WordsFor(groups, n).Some? ==> CleanWords(WordsFor(groups, n).value)
    decreases |groups|
  {
    if groups != [] {
      var s := groups[|groups| - 1];
      assert CleanShown(categories, s);
      WordsForClean(categories, groups[..|groups| - 1], n);
      if s.n == n && s.items.Some? && |s.items.value| == GROUP_SIZE {
        forall k | 0 <= k < GROUP_SIZE ensures Tight(WordsOf(s.items.value)[k]) {
          assert CleanItem(categories, n, s.items.value[k]);
        }
      }
    }
  }

  lemma TrimClean(words: seq<string>)
    requires CleanWords(words)
    ensures TrimAll(words) == words
  {
    forall k | 0 <= k < |words| ensures Trim(words[k]) == words[k] {
      TightTrim(words[k]);
    }
  }

  lemma SlotsTrimmed(categories: map<nat, string>, groups: seq<Shown>, g: Gathered)
    requires AllClean(categories, groups) && GatheredOk(categories, groups, g)
    ensures TrimSlots(g.slots) == g.slots
  {
    forall i | 0 <= i < |g.slots| ensures TrimSlots(g.slots)[i] == g.slots[i] {
      assert SlotAt(g.slots, i + 1) == WordsFor(groups, i + 1);
      WordsForClean(categories, groups, i + 1);
      if g.slots[i].Some? {
        TrimClean(g.slots[i].value);
      }
    }
  }

  lemma {:induction false} FourWordsClean(lines: seq<AnswerLine>)
    requires forall i :: 0 <= i < |lines| ==> CleanAnswer(lines[i])
    ensures TrimSlots(AllFilled(FourWords(lines))) == AllFilled(FourWords(lines))
    decreases |lines|
  {
    if lines != [] {
      var front, items := lines[..|lines| - 1], lines[|lines| - 1].items;
      assert CleanAnswer(lines[|lines| - 1]);
      FourWordsClean(front);
      if |items| == GROUP_SIZE {
        forall k | 0 <= k < GROUP_SIZE ensures Tight(WordsOf(items)[k]) {
          assert PlainItem(items[k]);
        }
        TrimClean(WordsOf(items));
        FilledMore(FourWords(front), WordsOf(items));
      } else {
        assert FourWords(front) + [] == FourWords(front);
      }
    }
  }

  lemma FilledMore(groups: seq<seq<string>>, words: seq<string>)
    requires TrimSlots(AllFilled(groups)) == AllFilled(groups) && TrimAll(words) == words
    ensures TrimSlots(AllFilled(groups + [words])) == AllFilled(groups + [words])
  {
    forall i | 0 <= i < |groups| + 1
      ensures TrimSlots(AllFilled(groups + [words]))[i] == AllFilled(groups + [words])[i]
    {
      if i < |groups| {
        assert TrimSlots(AllFilled(groups))[i] == AllFilled(groups)[i];
      }
    }
  }

  /** The proposals: of the groups, or, when no group has four words, of the answer lines. */
  ghost predicate ProposalsAre(groups: seq<Shown>, answered: seq<seq<string>>, proposals: Slots) {
    if forall n: nat :: 0 < n ==> WordsFor(groups, n).None? then proposals == AllFilled(answered)
    else
      && proposals != [] && proposals[|proposals| - 1].Some?
      && forall n: nat :: 0 < n ==> SlotAt(proposals, n) == WordsFor(groups, n)
  }

  /**
   What an answer so written parses to. Each proposal is the words of the last group of its
   number that has four, bare of emphasis and asides; a number without such a group is a
   hole, or past the end. Without any, the answer lines stand in, and where those have no
   four words the proposals stand in for the groups. The issues say exactly what was off.
   */
  ghost predicate ParsedAs(categories: map<nat, string>, groups: seq<Shown>, answered: seq<seq<string>>,
                           r: ParsedAnswer) {
    && ProposalsAre(groups, answered, r.proposalWords)
    && r.groups == (if answered != [] then answered else Filled(r.proposalWords))
    && (forall n: nat :: n in r.categoryByGroup <==> Named(categories, n) && Mentioned(groups, n))
    && (forall n: nat :: n in r.categoryByGroup ==> r.categoryByGroup[n] == categories[n])
    && (ParentheticalStripped in r.textIssues <==> AnyAside(groups))
    && (GroupCountOff in r.textIssues <==> AnyCountOff(groups))
    && (Unclassified in r.textIssues <==> SomeUnclassified(groups))
    && MultipleProposals !in r.textIssues
  }

  lemma ParseWritten(categories: map<nat, string>, groups: seq<Shown>, answer: Option<seq<AnswerLine>>)
    returns (text: string)
    requires CleanText(categories, groups, answer)
    ensures forall i :: 0 <= i < |groups| && groups[i].items.Some? ==> groups[i].items.value != []
    ensures answer.Some? ==> forall i :: 0 <= i < |answer.value| ==> answer.value[i].items != []
    ensures text == Written(categories, groups, answer)
    ensures ParsedAs(categories, groups, Answered(answer), Parse(text))
  {
    var g;
    text, g := WrittenReads(categories, groups, answer);
    if answer.Some? {
      FourWordsClean(answer.value);
    }
    FinishOk(categories, groups, g, Answered(answer));
  }

  lemma FinishOk(categories: map<nat, string>, groups: seq<Shown>, g: Gathered, answered: seq<seq<string>>)
    requires groups != [] && AllClean(categories, groups) && GatheredOk(categories, groups, g)
    requires TrimSlots(AllFilled(answered)) == AllFilled(answered)
    ensures ParsedAs(categories, groups, answered, Finish(g, answered, false))
  {
    UnclassifiedMeans(categories, groups, g);
    SlotsTrimmed(categories, groups, g);
    SlotsAreProposals(categories, groups, g);
    assert AllFilled([]) == [];
  }

  lemma SlotsAreProposals(categories: map<nat, string>, groups: seq<Shown>, g: Gathered)
    requires GatheredOk(categories, groups, g)
    ensures g.slots == [] <==> forall n: nat :: 0 < n ==> WordsFor(groups, n).None?
  {
    if g.slots != [] {
      assert SlotAt(g.slots, |g.slots|) == WordsFor(groups, |g.slots|);
      assert WordsFor(groups, |g.slots|).Some?;
    } else {
      forall n: nat | 0 < n ensures WordsFor(groups, n).None? {
        assert SlotAt(g.slots, n) == WordsFor(groups, n);
      }
    }
  }

  // ----- several answers in one text -----

  /** Two answer markers, the second one after the first has ended. */
  ghost predicate TwoMarkers(text: string) {
    exists i: nat, k: nat :: AnswerAt(text, i).Some? && AnswerAt(text, i).value <= k && AnswerAt(text, k).Some?
  }

  lemma {:induction false} FindAnswerFirst(text: string, i: nat)
    requires i <= |text|
    ensures match FindAnswer(text, i)
            case Some(k) => forall j :: i <= j < k ==> AnswerAt(text, j).None?
            case None => forall j :: i <= j <= |text| ==> AnswerAt(text, j).None?
    decreases |text| - i
  {
    if AnswerAt(text, i).None? && i < |text| {
      FindAnswerFirst(text, i + 1);
    }
  }

  /** No answer marker starts between two places. */
  ghost predicate NoMark(text: string, i: nat, j: nat) {
    forall m: nat :: i <= m < j ==> AnswerAt(text, m).None?
  }

  /** The answer block: from the end of the first marker to the next one, or to the end of the text. */
  lemma BlockExactly(text: string)
    ensures match AnswerBlock(text)
            case None => NoMark(text, 0, |text| + 1)
            case Some(block) =>
              exists i: nat ::
                && AnswerAt(text, i).Some? && NoMark(text, 0, i)
                && var e := AnswerAt(text, i).value;
                   if block.1 then
                     exists k: nat :: && e <= k <= |text| && AnswerAt(text, k).Some? && NoMark(text, e, k)
                                      && block.0 == text[e..k]
                   else NoMark(text, e, |text| + 1) && block.0 == text[e..]
  {
    FindAnswerFirst(text, 0);
    match FindAnswer(text, 0)
    case None =>
    case Some(i) =>
      assert AnswerAt(text, i).Some? && NoMark(text, 0, i);
      FindAnswerFirst(text, AnswerAt(text, i).value);
  }

  lemma {:induction false} SpacesBetween(text: string, i: nat)
    requires i <= |text|
    ensures forall k :: i <= k < SkipSpaces(text, i) ==> IsSpace(text[k])
    decreases |text| - i
  {
    if i < |text| && IsSpace(text[i]) {
      SpacesBetween(text, i + 1);
    }
  }

  /** Where a marker starts inside another one, both end at the same place. */
  lemma OverlapEndsTogether(text: string, i: nat, j: nat)
    requires AnswerAt(text, i).Some? && AnswerAt(text, j).Some? && i < j < AnswerAt(text, i).value
    ensures AnswerAt(text, j) == AnswerAt(text, i)
  {
    var from := if i + 2 < |text| && text[i + 2] == '#' then i + 3 else i + 2;
    var at := SkipSpaces(text, from);
    SpacesBetween(text, from);
    assert text[j] == '#' && text[j + 1] == '#';
    forall k | at <= k < at + 6 ensures text[k] != '#' {
      assert Lower(text[at + (k - at)]) == "answer"[k - at];
    }
    assert j == i + 1;
  }

  /** Whatever two markers a text holds, the one found first ends before the second of them starts. */
  lemma TwoAfterFirst(text: string, i: nat, j: nat, k: nat)
    requires FindAnswer(text, 0) == Some(i)
    requires AnswerAt(text, j).Some? && AnswerAt(text, j).value <= k && AnswerAt(text, k).Some?
    ensures AnswerAt(text, i).value <= k <= |text|
  {
    FindAnswerFirst(text, 0);
    if i < j < AnswerAt(text, i).value {
      OverlapEndsTogether(text, i, j);
    }
  }

  /** A text is flagged for several answers exactly when it holds two markers, one after the other. */
  lemma MultipleExactly(text: string)
    ensures MultipleProposals in Parse(text).textIssues <==> TwoMarkers(text)
  {
    IssuesOnlyThere(text);
    if TwoMarkers(text) {
      var j: nat, k: nat :| AnswerAt(text, j).Some? && AnswerAt(text, j).value <= k && AnswerAt(text, k).Some?;
      FindAnswerFirst(text, 0);
      var i := FindAnswer(text, 0).value;
      TwoAfterFirst(text, i, j, k);
      FindAnswerFirst(text, AnswerAt(text, i).value);
    } else {
      NoSecondMarker(text);
    }
  }

  lemma NoSecondMarker(text: string)
    requires !TwoMarkers(text)
    ensures AnswerBlock(text).Some? ==> !AnswerBlock(text).value.1
  {
  }

  lemma WordsNeverMultiple(g: Gathered, n: nat, line: string)
    requires MultipleProposals !in g.issues
    ensures MultipleProposals !in ReadWords(g, n, line).issues
  {
  }

  lemma ChunkNeverMultiple(g: Gathered, chunk: string)
    requires MultipleProposals !in g.issues
    ensures MultipleProposals !in ReadChunk(g, chunk).issues
  {
    match FindGroup(chunk, 0)
    case None =>
    case Some(i) =>
      var n := HeadingNumber(chunk, i);
      var g1 := g.(maxGroupNum := if n > g.maxGroupNum then n else g.maxGroupNum);
      match Field(chunk, 0, "words:")
      case None =>
      case Some(line) =>
        match Field(chunk, 0, "category:")
        case Some(category) => WordsNeverMultiple(g1.(categories := g1.categories[n := Trim(category)]), n, line);
        case None => WordsNeverMultiple(g1, n, line);
  }

  lemma {:induction false} ChunksNeverMultiple(g: Gathered, chunks: seq<string>)
    requires MultipleProposals !in g.issues
    ensures MultipleProposals !in ReadChunks(g, chunks).issues
    decreases |chunks|
  {
    if chunks != [] {
      ChunkNeverMultiple(g, chunks[0]);
      ChunksNeverMultiple(ReadChunk(g, chunks[0]), chunks[1..]);
    }
  }

  lemma IssuesOnlyThere(text: string)
    ensures MultipleProposals in Parse(text).textIssues <==> AnswerBlock(text).Some? && AnswerBlock(text).value.1
  {
    ChunksNeverMultiple(NOTHING, Chunks(GroupsSection(text)));
  }
}
