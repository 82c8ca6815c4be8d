/**
 The printer and the parser of the answer grammar undo each other
 (packages/answer-grammar/src/parse-answer.ts). The proof follows the text: a line of
 words splits back into its words, a printed group sets exactly its own slot, the groups
 section splits back into the printed groups, and both sections are found between their
 markers; so parsing what was printed gives the same answer, and printing that again
 gives the same text.
 */
module AnswerRoundTrip {
  import opened Options
  import opened AnswerGrammar
  import opened GrammarScans

  type Slots = seq<Option<seq<string>>>

  /** A word the printed answer can carry: none of the grammar's separators or stripped characters. */
  ghost predicate CleanWord(w: string) {
    Tight(w) && Lacks(w, ",\n()`*#-") && NoGroup(w)
  }

  /** A category the printed answer can carry. */
  ghost predicate CleanCategory(c: string) {
    Tight(c) && '\n' !in c && Unmarked(c + "\n") && NoGroup(c) && NoLabel(c, "words:")
  }

  predicate Named(categories: map<nat, string>, n: nat) {
    n in categories && categories[n] != ""
  }

  ghost predicate CleanGroup(categories: map<nat, string>, n: nat, words: seq<string>) {
    && |words| == GROUP_SIZE && (forall w :: w in words ==> CleanWord(w))
    && (if Named(categories, n) then CleanCategory(categories[n])
        else forall w :: w in words ==> NoLabel(w, "category:"))
  }

  /** What may stand on the words line of a printed group: one tight line with no heading and no other label. */
  ghost predicate CleanLine(categories: map<nat, string>, n: nat, line: string) {
    && Tight(line) && '\n' !in line && Unmarked(line + "\n") && NoGroup(line)
    && (if Named(categories, n) then CleanCategory(categories[n]) else NoLabel(line, "category:"))
  }

  ghost predicate CleanSlots(slots: Slots, categories: map<nat, string>) {
    forall i :: 0 <= i < |slots| && slots[i].Some? ==> CleanGroup(categories, i + 1, slots[i].value)
  }

  /** Clean groups, and no trailing hole. */
  ghost predicate Printable(slots: Slots, categories: map<nat, string>) {
    CleanSlots(slots, categories) && (slots != [] ==> slots[|slots| - 1].Some?)
  }

  // ----- one line of words -----

  lemma LacksFewer(s: string, more: string, chars: string)
    requires Lacks(s, more) && forall c :: c in chars ==> c in more
    ensures Lacks(s, chars)
  {
  }

  /** The rest of a line after its first word. */
  function Tail(words: seq<string>): string {
    if words == [] then "" else ", " + words[0] + Tail(words[1..])
  }

  lemma {:induction false} JoinIsTail(words: seq<string>)
    requires words != []
    ensures Join(words, ", ") == words[0] + Tail(words[1..])
  {
    if |words| > 1 {
      JoinIsTail(words[1..]);
      assert words[0] + ", " + (words[1] + Tail(words[1..][1..]))
             == words[0] + (", " + words[1] + Tail(words[1..][1..]));
    } else {
      assert words[1..] == [] && words[0] + "" == words[0];
    }
  }

  const LINE_STRIPPED := "\n()`*#-"

  lemma {:induction false} TailLacks(words: seq<string>)
    requires forall w :: w in words ==> CleanWord(w)
    ensures Lacks(Tail(words), LINE_STRIPPED)
  {
    if words != [] {
      TailLacks(words[1..]);
      assert CleanWord(words[0]);
      LacksFewer(words[0], ",\n()`*#-", LINE_STRIPPED);
    }
  }

  lemma {:induction false} TailNoGroup(words: seq<string>)
    requires forall w :: w in words ==> CleanWord(w)
    ensures NoGroup(Tail(words))
  {
    if words != [] {
      TailNoGroup(words[1..]);
      assert CleanWord(words[0]);
      NoGroupConcat(words[0], Tail(words[1..]));
      NoGroupPrefix(", ", words[0] + Tail(words[1..]));
      assert ", " + words[0] + Tail(words[1..]) == ", " + (words[0] + Tail(words[1..]));
    }
  }

  lemma {:induction false} TailNoLabel(words: seq<string>)
    requires forall w :: w in words ==> NoLabel(w, "category:")
    ensures NoLabel(Tail(words), "category:")
  {
    if words != [] {
      TailNoLabel(words[1..]);
      if words[1..] == [] {
        assert words[0] + Tail(words[1..]) == words[0];
      } else {
        NoLabelConcat(words[0], Tail(words[1..]), "category:");
      }
      NoLabelPrefix(", ", words[0] + Tail(words[1..]), "category:");
      assert ", " + words[0] + Tail(words[1..]) == ", " + (words[0] + Tail(words[1..]));
    }
  }

  /** Splitting at commas gives the words back, all but the first with their blank. */
  function Spaced(words: seq<string>): seq<string> {
    if words == [] then [] else [" " + words[0]] + Spaced(words[1..])
  }

  lemma CommaFirst(first: string, a: string, b: string)
    ensures first + (", " + a + b) == first + [','] + (" " + a + b)
  {
    assert ", " == [','] + " ";
    Regroup([','], " ", a, b);
    Regroup(" ", a, b, "");
    Regroup(first, [','], " " + a + b, "");
  }

  lemma {:induction false} SplitLine(first: string, words: seq<string>)
    requires ',' !in first && forall w :: w in words ==> CleanWord(w)
    ensures SplitOn(first + Tail(words), ',') == [first] + Spaced(words)
    decreases |words|
  {
    if words == [] {
      assert first + "" == first;
      SplitNone(first, ',');
    } else {
      assert CleanWord(words[0]);
      CommaFirst(first, words[0], Tail(words[1..]));
      SplitFirst(first, ',', " " + words[0] + Tail(words[1..]));
      SplitLine(" " + words[0], words[1..]);
    }
  }

  lemma CleanOne(word: string, chars: string)
    requires CleanWord(word) && (forall c :: c in chars ==> c in ",\n()`*#-") && ' ' !in chars
    ensures Trim(Strip(word, chars)) == word && Trim(Strip(" " + word, chars)) == word
  {
    LacksFewer(word, ",\n()`*#-", chars);
    StripNothing(word, chars);
    StripNothing(" " + word, chars);
    TightTrim(word);
  }

  lemma {:induction false} CleanSpaced(words: seq<string>, chars: string)
    requires forall w :: w in words ==> CleanWord(w)
    requires (forall c :: c in chars ==> c in ",\n()`*#-") && ' ' !in chars
    ensures Cleaned(Spaced(words), chars) == words
  {
    if words != [] {
      CleanOne(words[0], chars);
      CleanSpaced(words[1..], chars);
      assert Spaced(words)[1..] == Spaced(words[1..]);
      assert [words[0]] + words[1..] == words;
    }
  }

  /** A printed line is tight, on one line, without a heading, and parses back to its words. */
  lemma LineParses(words: seq<string>, chars: string)
    requires words != [] && forall w :: w in words ==> CleanWord(w)
    requires (forall c :: c in chars ==> c in ",\n()`*#-") && ' ' !in chars
    ensures Items(Join(words, ", "), chars) == words
  {
    JoinIsTail(words);
    assert CleanWord(words[0]);
    SplitLine(words[0], words[1..]);
    CleanOne(words[0], chars);
    CleanSpaced(words[1..], chars);
    var parts := [words[0]] + Spaced(words[1..]);
    assert parts[1..] == Spaced(words[1..]);
    assert [words[0]] + words[1..] == words;
  }

  lemma LineIsClean(words: seq<string>)
    requires words != [] && forall w :: w in words ==> CleanWord(w)
    ensures var line := Join(words, ", ");
            Tight(line) && Lacks(line, LINE_STRIPPED) && NoGroup(line)
  {
    JoinIsTail(words);
    assert CleanWord(words[0]);
    TailLacks(words[1..]);
    LacksFewer(words[0], ",\n()`*#-", LINE_STRIPPED);
    TailNoGroup(words[1..]);
    NoGroupConcat(words[0], Tail(words[1..]));
    if words[1..] == [] {
      assert words[0] + "" == words[0];
    }
  }

  lemma LineNoLabel(words: seq<string>)
    requires words != [] && forall w :: w in words ==> NoLabel(w, "category:")
    ensures NoLabel(Join(words, ", "), "category:")
  {
    JoinIsTail(words);
    TailNoLabel(words[1..]);
    if words[1..] == [] {
      assert words[0] + "" == words[0];
    } else {
      NoLabelConcat(words[0], Tail(words[1..]), "category:");
    }
  }

  // ----- one printed group -----

  function Head(n: nat): string {
    "Group " + Decimal(n) + "\n"
  }

  function WordsLine(line: string): string {
    "Words: " + line + "\n" + "\n"
  }

  /** A printed block with that words line, and the blank line after it. */
  function Chunk(categories: map<nat, string>, n: nat, line: string): string {
    Head(n) + (CategoryLine(categories, n) + WordsLine(line))
  }

  lemma ChunkIsBlock(categories: map<nat, string>, n: nat, words: seq<string>)
    ensures Chunk(categories, n, Join(words, ", ")) == Block(categories, n, words) + "\n\n"
  {
    var line := Join(words, ", ");
    assert "\n" + "\n" == "\n\n";
    assert WordsLine(line) == "Words: " + line + "\n\n";
    assert Head(n) + (CategoryLine(categories, n) + ("Words: " + line + "\n\n"))
           == Head(n) + CategoryLine(categories, n) + "Words: " + line + "\n\n";
  }

  lemma HeadLetters(n: nat)
    ensures forall k :: 0 <= k < |Head(n)| ==> Lower(Head(n)[k]) != 'c' && Lower(Head(n)[k]) != 'w'
    ensures forall k :: 1 <= k < |Head(n)| ==> Lower(Head(n)[k]) != 'g'
    ensures Head(n)[0] == 'G' && |Head(n)| > 7
  {
    DecimalIs(n);
    var d := Decimal(n);
    forall k | 0 <= k < |Head(n)|
      ensures Lower(Head(n)[k]) != 'c' && Lower(Head(n)[k]) != 'w' && (k > 0 ==> Lower(Head(n)[k]) != 'g')
    {
      if 6 <= k < 6 + |d| {
        assert Head(n)[k] == d[k - 6];
      }
    }
  }

  lemma HeadIsHeading(n: nat, rest: string)
    ensures GroupAt(Head(n) + rest, 0) && HeadingNumber(Head(n) + rest, 0) == n
  {
    DecimalIs(n);
    var d, t := Decimal(n), Head(n) + rest;
    assert t[0] == 'G' && t[1] == 'r' && t[2] == 'o' && t[3] == 'u' && t[4] == 'p' && t[5] == ' ';
    assert forall k :: 0 <= k < |d| ==> t[6 + k] == d[k];
    assert t[6] == d[0] && t[6 + |d|] == '\n';
    assert SkipSpaces(t, 6) == 6 && SkipSpaces(t, 5) == 6;
    assert t[6..6 + |d|] == d;
    forall k | 6 <= k < 6 + |d| ensures IsDigit(t[k]) {
      assert t[k] == d[k - 6];
    }
    SkipDigitsIs(t, 6, 6 + |d|);
  }

  lemma WordsLineNoGroup(line: string)
    requires NoGroup(line)
    ensures NoGroup(WordsLine(line))
  {
    NoGroupSpace(line, "\n" + "\n");
    NoGroupPrefix("Words: ", line + ("\n" + "\n"));
    assert WordsLine(line) == "Words: " + (line + ("\n" + "\n"));
  }

  lemma CategoryPrefixNoGroup(rest: string)
    requires NoGroup(rest)
    ensures NoGroup("Category: " + rest)
  {
    forall i | 0 <= i < 10 ensures !GroupAt("Category: " + rest, i) {
      var t := "Category: " + rest;
      assert t[4] == 'g' && t[5] == 'o' && "group"[0] == 'g' && "group"[1] == 'r';
      if i == 4 {
        assert Lower(t[4 + 1]) != "group"[1];
      } else {
        assert Lower(t[i + 0]) != "group"[0];
      }
    }
    forall i | 0 <= i < |"Category: " + rest| ensures !GroupAt("Category: " + rest, i) {
      if i >= 10 {
        GroupShift("Category: ", rest, i - 10);
      }
    }
  }

  lemma BodyNoGroup(categories: map<nat, string>, n: nat, line: string)
    requires CleanLine(categories, n, line)
    ensures NoGroup(CategoryLine(categories, n) + WordsLine(line))
  {
    WordsLineNoGroup(line);
    if Named(categories, n) {
      var c := categories[n];
      NoGroupSpace(c, "\n");
      NoGroupConcat(c + "\n", WordsLine(line));
      CategoryPrefixNoGroup(c + "\n" + WordsLine(line));
      Regroup("Category: ", c, "\n", WordsLine(line));
    } else {
      assert "" + WordsLine(line) == WordsLine(line);
    }
  }

  /** A chunk as the splitter needs it: a heading at its start and nowhere else, and white space at its end. */
  ghost predicate IsChunk(s: string) {
    |s| > 1 && s[0] == 'G' && GroupAt(s, 0) && IsSpace(s[|s| - 1]) && NoGroup(s[1..])
  }

  lemma DropOne(a: string, b: string)
    requires a != ""
    ensures (a + b)[1..] == a[1..] + b
  {
  }

  lemma ChunkIsChunk(categories: map<nat, string>, n: nat, line: string)
    requires CleanLine(categories, n, line)
    ensures IsChunk(Chunk(categories, n, line))
  {
    var body := CategoryLine(categories, n) + WordsLine(line);
    HeadLetters(n);
    HeadIsHeading(n, body);
    BodyNoGroup(categories, n, line);
    NoGroupPrefix(Head(n)[1..], body);
    DropOne(Head(n), body);
  }

  // ----- reading one printed group -----

  lemma CategoryShown(c: string, n: nat, rest: string)
    requires CleanCategory(c)
    ensures Field(Head(n) + ("Category: " + c + "\n" + rest), 0, "category:") == Some(c)
  {
    HeadLetters(n);
    NoneBeforePlain(Head(n), "Category: " + c + "\n" + rest, "category:");
    ShownMarkers();
    ShownField(Head(n), "Category: ", c, rest, "category:");
  }

  lemma NoCategoryShown(n: nat, line: string)
    requires NoLabel(line, "category:")
    ensures Field(Head(n) + WordsLine(line), 0, "category:") == None
  {
    BlankNoLabel();
    NoLabelConcat(line, "\n" + "\n", "category:");
    NoLabelPrefix("Words: ", line + ("\n" + "\n"), "category:");
    Regroup("Words: ", line, "\n", "\n");
    Regroup(line, "\n", "\n", "");
    HeadLetters(n);
    NoLabelPrefix(Head(n), WordsLine(line), "category:");
    NoField(Head(n) + WordsLine(line), "category:");
  }

  lemma CategoryField(categories: map<nat, string>, n: nat, line: string)
    requires CleanLine(categories, n, line)
    ensures Field(Chunk(categories, n, line), 0, "category:")
            == if Named(categories, n) then Some(categories[n]) else None
  {
    if Named(categories, n) {
      CategoryShown(categories[n], n, WordsLine(line));
    } else {
      NoCategoryShown(n, line);
      assert "" + WordsLine(line) == WordsLine(line);
    }
  }

  lemma BlankNoLabel()
    ensures NoLabel("\n" + "\n", "category:")
  {
    var t := "\n" + "\n";
    forall k | 0 <= k <= |t| ensures !LabelAt(t, k, "category:") {
    }
  }

  lemma ShownMarkers()
    ensures LabelAt("Category: ", 0, "category:") && LabelAt("Words: ", 0, "words:")
  {
    forall k | 0 <= k < 9 ensures Lower("Category: "[0 + k]) == "category:"[k] {
    }
    forall k | 0 <= k < 6 ensures Lower("Words: "[0 + k]) == "words:"[k] {
    }
  }

  lemma NoWordsInCategory(c: string, rest: string)
    requires CleanCategory(c)
    ensures NoneBefore("Category: " + c + "\n", rest, "words:")
  {
    NoneBeforePlain("\n", rest, "words:");
    NoneBeforeWall(c, "\n" + rest, "words:");
    NoneBeforeJoin(c, "\n", rest, "words:");
    NoneBeforePlain("Category: ", c + "\n" + rest, "words:");
    NoneBeforeJoin("Category: ", c + "\n", rest, "words:");
    Regroup("Category: ", c, "\n", "");
  }

  /** Nothing before the words line reads as its marker. */
  lemma NoWordsBefore(categories: map<nat, string>, n: nat, line: string)
    requires CleanLine(categories, n, line)
    ensures NoneBefore(Head(n) + CategoryLine(categories, n), WordsLine(line), "words:")
  {
    if Named(categories, n) {
      NoWordsInCategory(categories[n], WordsLine(line));
    }
    HeadLetters(n);
    NoneBeforePlain(Head(n), CategoryLine(categories, n) + WordsLine(line), "words:");
    NoneBeforeJoin(Head(n), CategoryLine(categories, n), WordsLine(line), "words:");
  }

  lemma WordsField(categories: map<nat, string>, n: nat, line: string)
    requires CleanLine(categories, n, line)
    ensures Field(Chunk(categories, n, line), 0, "words:") == Some(line)
  {
    ShownMarkers();
    NoWordsBefore(categories, n, line);
    Regroup(Head(n), CategoryLine(categories, n), WordsLine(line), "");
    ShownField(Head(n) + CategoryLine(categories, n), "Words: ", line, "\n", "words:");
  }

  lemma NoBreak(line: string)
    requires Lacks(line, "\n#")
    ensures '\n' !in line && '#' !in line
  {
    assert "\n#"[0] == '\n' && "\n#"[1] == '#';
    assert '\n' in "\n#" && '#' in "\n#";
  }

  lemma ReadPrintedWords(g: Gathered, n: nat, words: seq<string>)
    requires |words| == GROUP_SIZE && forall w :: w in words ==> CleanWord(w)
    ensures ReadWords(g, n, Join(words, ", ")) == g.(slots := SetSlot(g.slots, n, words))
  {
    var line := Join(words, ", ");
    LineIsClean(words);
    NothingToStrip(line, 0);
    assert line[0..] == line;
    LineParses(words, "`*");
    assert g.issues + {} == g.issues;
  }

  /** What the heading and the category of a printed group set. */
  function Headed(g: Gathered, categories: map<nat, string>, n: nat): Gathered {
    g.(categories := if Named(categories, n) then g.categories[n := categories[n]] else g.categories,
       maxGroupNum := if n > g.maxGroupNum then n else g.maxGroupNum)
  }

  /** What reading one printed group with any clean words line does, up to the words. */
  lemma ReadLine(g: Gathered, categories: map<nat, string>, n: nat, line: string)
    requires CleanLine(categories, n, line)
    ensures ReadChunk(g, Chunk(categories, n, line))
            == ReadWords(Headed(g, categories, n), n, line)
  {
    var text := Chunk(categories, n, line);
    HeadIsHeading(n, CategoryLine(categories, n) + WordsLine(line));
    FindGroupIs(text, 0, 0);
    CategoryField(categories, n, line);
    WordsField(categories, n, line);
    if Named(categories, n) {
      TightTrim(categories[n]);
    }
  }

  lemma GroupLine(categories: map<nat, string>, n: nat, words: seq<string>)
    requires CleanGroup(categories, n, words)
    ensures CleanLine(categories, n, Join(words, ", "))
  {
    LineIsClean(words);
    LacksFewer(Join(words, ", "), LINE_STRIPPED, "\n#");
    NoBreak(Join(words, ", "));
    if !Named(categories, n) {
      LineNoLabel(words);
    }
  }

  /** What reading one printed group does. */
  lemma ReadPrinted(g: Gathered, categories: map<nat, string>, n: nat, words: seq<string>)
    requires CleanGroup(categories, n, words)
    ensures ReadChunk(g, Chunk(categories, n, Join(words, ", ")))
            == Headed(g, categories, n).(slots := SetSlot(g.slots, n, words))
  {
    GroupLine(categories, n, words);
    ReadLine(g, categories, n, Join(words, ", "));
    ReadPrintedWords(Headed(g, categories, n), n, words);
  }

  // ----- splitting the section into chunks -----

  function Concat(chunks: seq<string>): string {
    if chunks == [] then "" else chunks[0] + Concat(chunks[1..])
  }

  ghost predicate AllChunks(chunks: seq<string>) {
    forall i :: 0 <= i < |chunks| ==> IsChunk(chunks[i])
  }

  lemma GroupExtends(a: string, b: string)
    requires GroupAt(a, 0)
    ensures GroupAt(a + b, 0)
  {
    SkipInside(a, b, 5);
    forall k | 0 <= k < 5 ensures Lower((a + b)[0 + k]) == "group"[k] {
      assert Lower(a[0 + k]) == "group"[k];
    }
    var j := SkipSpaces(a, 5);
    assert (a + b)[j] == a[j];
  }

  /** No heading starts inside a chunk, whatever chunk follows. */
  lemma NoneInside(chunk: string, rest: string, i: nat)
    requires IsChunk(chunk) && (rest == "" || rest[0] == 'G') && 1 <= i < |chunk|
    ensures !GroupAt(chunk + rest, i)
  {
    if GroupAt(chunk + rest, i) {
      GroupStays(chunk, rest, i);
      assert chunk == [chunk[0]] + chunk[1..];
      GroupShift([chunk[0]], chunk[1..], i - 1);
    }
  }

  lemma LastChunk(chunk: string)
    requires IsChunk(chunk)
    ensures Chunks(chunk) == [chunk]
  {
    assert chunk + "" == chunk;
    forall i | 1 <= i < |chunk| ensures !GroupAt(chunk, i) {
      NoneInside(chunk, "", i);
    }
    FindGroupNone(chunk, 1);
  }

  lemma FirstChunk(chunk: string, rest: string)
    requires IsChunk(chunk) && rest != "" && rest[0] == 'G' && GroupAt(rest, 0)
    ensures Chunks(chunk + rest) == [chunk] + Chunks(rest)
  {
    forall i | 1 <= i < |chunk| ensures !GroupAt(chunk + rest, i) {
      NoneInside(chunk, rest, i);
    }
    GroupShift(chunk, rest, 0);
    FindGroupIs(chunk + rest, 1, |chunk|);
    assert (chunk + rest)[..|chunk|] == chunk && (chunk + rest)[|chunk|..] == rest;
  }

  lemma {:induction false} SplitsBack(chunks: seq<string>)
    requires chunks != [] && AllChunks(chunks)
    ensures Chunks(Concat(chunks)) == chunks
    ensures Concat(chunks) != "" && Concat(chunks)[0] == 'G' && GroupAt(Concat(chunks), 0)
    decreases |chunks|
  {
    var first, rest := chunks[0], Concat(chunks[1..]);
    assert IsChunk(first);
    GroupExtends(first, rest);
    assert chunks == [first] + chunks[1..];
    if chunks[1..] == [] {
      assert first + rest == first;
      LastChunk(first);
    } else {
      SplitsBack(chunks[1..]);
      FirstChunk(first, rest);
    }
  }

  /** With the line feed before the first block, there is one more chunk, without a heading. */
  lemma SectionSplits(chunks: seq<string>)
    requires chunks != [] && AllChunks(chunks)
    ensures Chunks("\n" + Concat(chunks)) == ["\n"] + chunks
  {
    SplitsBack(chunks);
    var text := "\n" + Concat(chunks);
    GroupShift("\n", Concat(chunks), 0);
    FindGroupIs(text, 1, 1);
    assert text[..1] == "\n" && text[1..] == Concat(chunks);
  }

  // ----- the printed section -----

  function PrintedChunks(slots: Slots, categories: map<nat, string>): seq<string>
    decreases |slots|
  {
    if slots == [] then []
    else
      var n := |slots|;
      PrintedChunks(slots[..n - 1], categories)
      + if slots[n - 1].Some? then [Chunk(categories, n, Join(slots[n - 1].value, ", "))] else []
  }

  function Trailed(blocks: seq<string>): seq<string> {
    seq(|blocks|, i requires 0 <= i < |blocks| => blocks[i] + "\n\n")
  }

  lemma {:induction false} JoinTrails(blocks: seq<string>)
    requires blocks != []
    ensures Join(blocks, "\n\n") + "\n\n" == Concat(Trailed(blocks))
  {
    var first, rest := blocks[0], blocks[1..];
    assert Trailed(blocks)[0] == first + "\n\n" && Trailed(blocks)[1..] == Trailed(rest);
    if rest == [] {
      assert Concat(Trailed(rest)) == "" && first + "\n\n" + "" == first + "\n\n";
    } else {
      JoinTrails(rest);
      Regroup(first, "\n\n", Join(rest, "\n\n"), "\n\n");
      Regroup(first + "\n\n", Join(rest, "\n\n"), "\n\n", "");
    }
  }

  lemma {:induction false} BlocksTrailed(slots: Slots, categories: map<nat, string>)
    ensures PrintedChunks(slots, categories) == Trailed(Blocks(slots, categories))
    decreases |slots|
  {
    if slots != [] {
      var n := |slots|;
      BlocksTrailed(slots[..n - 1], categories);
      if slots[n - 1].Some? {
        ChunkIsBlock(categories, n, slots[n - 1].value);
      }
    }
  }

  lemma MoreChunks(chunks: seq<string>, chunk: string)
    requires AllChunks(chunks) && Unmarked(Concat(chunks)) && IsChunk(chunk) && Unmarked(chunk)
    ensures AllChunks(chunks + [chunk]) && Unmarked(Concat(chunks + [chunk]))
  {
    ConcatAppend(chunks, chunk);
    UnmarkedConcat(Concat(chunks), chunk);
  }

  lemma {:induction false} PrintedAreChunks(slots: Slots, categories: map<nat, string>)
    requires CleanSlots(slots, categories)
    ensures AllChunks(PrintedChunks(slots, categories))
    ensures Unmarked(Concat(PrintedChunks(slots, categories)))
    decreases |slots|
  {
    if slots != [] {
      var n := |slots|;
      var front := PrintedChunks(slots[..n - 1], categories);
      PrintedAreChunks(slots[..n - 1], categories);
      if slots[n - 1].Some? {
        assert CleanGroup(categories, n, slots[n - 1].value);
        var line := Join(slots[n - 1].value, ", ");
        GroupLine(categories, n, slots[n - 1].value);
        ChunkIsChunk(categories, n, line);
        ChunkUnmarked(categories, n, line);
        MoreChunks(front, Chunk(categories, n, line));
      } else {
        assert front + [] == front;
      }
    }
  }

  lemma {:induction false} ConcatAppend(chunks: seq<string>, chunk: string)
    ensures Concat(chunks + [chunk]) == Concat(chunks) + chunk
  {
    if chunks == [] {
      assert [] + [chunk] == [chunk] && [chunk][1..] == [];
      assert chunk + "" == chunk && "" + chunk == chunk;
    } else {
      assert (chunks + [chunk])[1..] == chunks[1..] + [chunk];
      ConcatAppend(chunks[1..], chunk);
      Regroup(chunks[0], Concat(chunks[1..]), chunk, "");
    }
  }

  lemma CategoryUnmarked(categories: map<nat, string>, n: nat)
    requires Named(categories, n) ==> CleanCategory(categories[n])
    ensures Unmarked(CategoryLine(categories, n))
  {
    if Named(categories, n) {
      UnmarkedConcat("Category: ", categories[n] + "\n");
      assert CategoryLine(categories, n) == "Category: " + (categories[n] + "\n");
    }
  }

  lemma HeadUnmarked(n: nat)
    ensures Unmarked(Head(n))
  {
    DecimalIs(n);
  }

  lemma ChunkUnmarked(categories: map<nat, string>, n: nat, line: string)
    requires CleanLine(categories, n, line)
    ensures Unmarked(Chunk(categories, n, line))
  {
    UnmarkedConcat("Words: ", line + "\n");
    UnmarkedConcat("Words: " + (line + "\n"), "\n");
    Regroup("Words: ", line, "\n", "\n");
    assert WordsLine(line) == "Words: " + (line + "\n") + "\n";
    CategoryUnmarked(categories, n);
    HeadUnmarked(n);
    UnmarkedConcat(CategoryLine(categories, n), WordsLine(line));
    UnmarkedConcat(Head(n), CategoryLine(categories, n) + WordsLine(line));
  }

  // ----- reading all printed groups -----

  /** The slots up to the last filled one. */
  function TrimHoles(slots: Slots): Slots
    decreases |slots|
  {
    if slots == [] || slots[|slots| - 1].Some? then slots else TrimHoles(slots[..|slots| - 1])
  }

  /** The categories the printer shows: those of filled groups that are not empty. */
  function Labels(slots: Slots, categories: map<nat, string>): map<nat, string> {
    map n | n in categories && 0 < n <= |slots| && slots[n - 1].Some? && categories[n] != "" :: categories[n]
  }

  lemma {:induction false} TrimmedIsPadded(slots: Slots)
    ensures |TrimHoles(slots)| <= |slots|
    ensures slots == TrimHoles(slots) + Holes(|slots| - |TrimHoles(slots)|)
    decreases |slots|
  {
    if slots == [] || slots[|slots| - 1].Some? {
      assert slots + Holes(0) == slots;
    } else {
      var front := slots[..|slots| - 1];
      TrimmedIsPadded(front);
      assert slots == front + [None];
      assert Holes(|front| - |TrimHoles(front)|) + [None] == Holes(|slots| - |TrimHoles(front)|);
    }
  }

  lemma LabelsNext(slots: Slots, categories: map<nat, string>)
    requires slots != []
    ensures var n, before := |slots|, Labels(slots[..|slots| - 1], categories);
            Labels(slots, categories)
            == if slots[n - 1].Some? && Named(categories, n) then before[n := categories[n]] else before
  {
  }

  lemma {:induction false} ReadAppend(g: Gathered, a: seq<string>, b: seq<string>)
    ensures ReadChunks(g, a + b) == ReadChunks(ReadChunks(g, a), b)
    decreases |a|
  {
    if a == [] {
      assert a + b == b;
    } else {
      assert (a + b)[1..] == a[1..] + b;
      ReadAppend(ReadChunk(g, a[0]), a[1..], b);
    }
  }

  function ReadBack(slots: Slots, categories: map<nat, string>): Gathered {
    Gathered(TrimHoles(slots), Labels(slots, categories), {}, {}, |TrimHoles(slots)|)
  }

  lemma {:induction false} ReadPrintedChunks(slots: Slots, categories: map<nat, string>)
    requires CleanSlots(slots, categories)
    ensures ReadChunks(NOTHING, PrintedChunks(slots, categories)) == ReadBack(slots, categories)
    decreases |slots|
  {
    if slots == [] {
      assert Labels(slots, categories) == map[];
    } else {
      var n, front := |slots|, slots[..|slots| - 1];
      ReadPrintedChunks(front, categories);
      if slots[n - 1].Some? {
        var words := slots[n - 1].value;
        ReadAppend(NOTHING, PrintedChunks(front, categories), [Chunk(categories, n, Join(words, ", "))]);
        ReadOne(ReadBack(front, categories), Chunk(categories, n, Join(words, ", ")));
        ReadNext(slots, categories);
      } else {
        LabelsNext(slots, categories);
        assert PrintedChunks(front, categories) + [] == PrintedChunks(front, categories);
      }
    }
  }

  lemma ReadNext(slots: Slots, categories: map<nat, string>)
    requires slots != [] && slots[|slots| - 1].Some?
    requires CleanGroup(categories, |slots|, slots[|slots| - 1].value)
    ensures var n := |slots|;
            ReadChunk(ReadBack(slots[..n - 1], categories), Chunk(categories, n, Join(slots[n - 1].value, ", ")))
            == ReadBack(slots, categories)
  {
    ReadPrinted(ReadBack(slots[..|slots| - 1], categories), categories, |slots|, slots[|slots| - 1].value);
    ReadBackNext(slots, categories);
  }

  lemma ReadBackNext(slots: Slots, categories: map<nat, string>)
    requires slots != [] && slots[|slots| - 1].Some?
    ensures var n, g := |slots|, ReadBack(slots[..|slots| - 1], categories);
            ReadBack(slots, categories)
            == g.(slots := SetSlot(g.slots, n, slots[n - 1].value),
                  categories := if Named(categories, n) then g.categories[n := categories[n]] else g.categories,
                  maxGroupNum := if n > g.maxGroupNum then n else g.maxGroupNum)
  {
    var front, words := slots[..|slots| - 1], slots[|slots| - 1].value;
    LabelsNext(slots, categories);
    TrimmedIsPadded(front);
    assert slots == front + [Some(words)];
  }

  lemma ReadOne(g: Gathered, chunk: string)
    ensures ReadChunks(g, [chunk]) == ReadChunk(g, chunk)
  {
    assert [chunk][1..] == [];
  }

  // ----- the two sections of the text -----

  const GROUPS_MARKER := "### GROUPS"
  const ANSWER_MARKER := "### ANSWER"

  /** Two markers, and no other number sign anywhere. */
  function Sections(section: string, answer: string): string {
    GROUPS_MARKER + (section + (ANSWER_MARKER + answer))
  }

  /** Where the characters of the text come from. */
  lemma SectionsAt(section: string, answer: string)
    ensures var t, n := Sections(section, answer), 10 + |section|;
            && |t| == n + 10 + |answer|
            && (forall k :: 0 <= k < 10 ==> t[k] == GROUPS_MARKER[k])
            && (forall k :: 10 <= k < n ==> t[k] == section[k - 10])
            && (forall k :: n <= k < n + 10 ==> t[k] == ANSWER_MARKER[k - n])
            && (forall k :: n + 10 <= k < |t| ==> t[k] == answer[k - n - 10])
            && t[10..n] == section && t[n + 10..] == answer
  {
  }

  lemma GroupsMarkerFound(section: string, answer: string)
    ensures FindLabel(Sections(section, answer), 0, "### groups") == Some(0)
  {
    LabelExtends(GROUPS_MARKER, section + (ANSWER_MARKER + answer), 0, "### groups");
    FindLabelIs(Sections(section, answer), 0, 0, "### groups");
  }

  lemma AnswerMarkerFound(section: string, answer: string)
    requires Unmarked(section)
    ensures FindLabel(Sections(section, answer), 10, "### answer") == Some(10 + |section|)
  {
    var rest := section + (ANSWER_MARKER + answer);
    LabelExtends(ANSWER_MARKER, answer, 0, "### answer");
    LabelShift(section, ANSWER_MARKER + answer, 0, "### answer");
    LabelShift(GROUPS_MARKER, rest, |section|, "### answer");
    NoneBeforeUnmarked(section, ANSWER_MARKER + answer, "### answer");
    forall k | 10 <= k < 10 + |section| ensures !LabelAt(Sections(section, answer), k, "### answer") {
      LabelShift(GROUPS_MARKER, rest, k - 10, "### answer");
    }
    FindLabelIs(Sections(section, answer), 10, 10 + |section|, "### answer");
  }

  lemma SectionFound(section: string, answer: string)
    requires Unmarked(section)
    ensures GroupsSection(Sections(section, answer)) == section
  {
    GroupsMarkerFound(section, answer);
    AnswerMarkerFound(section, answer);
    SectionsAt(section, answer);
  }

  /** The groups marker is no answer marker, at any of its number signs. */
  lemma GroupsIsNoAnswer(t: string, k: nat)
    requires |t| >= 10 && (forall j :: 0 <= j < 10 ==> t[j] == GROUPS_MARKER[j]) && k < 10
    ensures AnswerAt(t, k).None?
  {
    assert t[0] == '#' && t[1] == '#' && t[2] == '#' && t[3] == ' ' && t[4] == 'G';
    assert SkipSpaces(t, 4) == 4 && SkipSpaces(t, 3) == 4;
    assert "answer"[0] == 'a' && t[4 + 0] == t[4];
    assert !LabelAt(t, 4, "answer");
    if k > 2 {
      assert t[k] == GROUPS_MARKER[k];
      OneHashNoAnswer(t, k);
    }
  }

  lemma AnswerIsAnswer(t: string, n: nat)
    requires n + 10 <= |t| && (forall j :: n <= j < n + 10 ==> t[j] == ANSWER_MARKER[j - n])
    requires n + 10 < |t| ==> t[n + 10] != ':'
    ensures AnswerAt(t, n) == Some(n + 10)
  {
    assert t[n] == '#' && t[n + 1] == '#' && t[n + 2] == '#' && t[n + 3] == ' ' && t[n + 4] == 'A';
    assert SkipSpaces(t, n + 4) == n + 4 && SkipSpaces(t, n + 3) == n + 4;
    forall k | 0 <= k < 6 ensures Lower(t[n + 4 + k]) == "answer"[k] {
      assert t[n + 4 + k] == ANSWER_MARKER[4 + k];
    }
  }

  lemma AnswerFound(section: string, answer: string)
    requires Unmarked(section) && '#' !in answer && answer != "" && answer[0] == '\n'
    ensures AnswerBlock(Sections(section, answer)) == Some((answer, false))
  {
    var t, n := Sections(section, answer), 10 + |section|;
    SectionsAt(section, answer);
    forall k | 0 <= k < n ensures AnswerAt(t, k).None? {
      if k < 10 {
        GroupsIsNoAnswer(t, k);
      } else {
        assert t[k] == section[k - 10];
        assert k + 1 < n ==> t[k + 1] == section[k + 1 - 10];
        OneHashNoAnswer(t, k);
      }
    }
    AnswerIsAnswer(t, n);
    FindAnswerIs(t, 0, n);
    forall k | n + 10 <= k <= |t| ensures AnswerAt(t, k).None? {
      assert k < |t| ==> t[k] == answer[k - n - 10];
      OneHashNoAnswer(t, k);
    }
    FindAnswerNone(t, n + 10);
  }

  // ----- the answer section -----

  lemma {:induction false} LinesAreClean(slots: Slots, categories: map<nat, string>)
    requires CleanSlots(slots, categories)
    ensures forall i :: 0 <= i < |Lines(slots)| ==> Tight(Lines(slots)[i]) && Lacks(Lines(slots)[i], "\n#")
    decreases |slots|
  {
    if slots != [] {
      LinesAreClean(slots[..|slots| - 1], categories);
      if slots[|slots| - 1].Some? {
        assert CleanGroup(categories, |slots|, slots[|slots| - 1].value);
        LineIsClean(slots[|slots| - 1].value);
        LacksFewer(Join(slots[|slots| - 1].value, ", "), LINE_STRIPPED, "\n#");
      }
    }
  }

  lemma {:induction false} JoinedLines(lines: seq<string>)
    requires lines != []
    requires forall i :: 0 <= i < |lines| ==> Tight(lines[i]) && Lacks(lines[i], "\n#")
    ensures var text := Join(lines, "\n");
            Tight(text) && '#' !in text && SplitOn(text, '\n') == lines
  {
    var first := lines[0];
    NoBreak(first);
    if |lines| == 1 {
      SplitNone(first, '\n');
      assert lines == [first];
    } else {
      var rest := Join(lines[1..], "\n");
      JoinedLines(lines[1..]);
      SplitFirst(first, '\n', rest);
      assert lines == [first] + lines[1..];
      assert first + "\n" + rest == first + ['\n'] + rest;
    }
  }

  lemma {:induction false} FilledAppend(a: Slots, b: Slots)
    ensures Filled(a + b) == Filled(a) + Filled(b)
    decreases |a|
  {
    if a == [] {
      assert a + b == b;
    } else {
      assert (a + b)[1..] == a[1..] + b;
      FilledAppend(a[1..], b);
    }
  }

  lemma LineBack(words: seq<string>)
    requires |words| == GROUP_SIZE && forall w :: w in words ==> CleanWord(w)
    ensures Trim(Join(words, ", ")) == Join(words, ", ") && Items(Join(words, ", "), "`*#-") == words
  {
    LineIsClean(words);
    TightTrim(Join(words, ", "));
    LineParses(words, "`*#-");
  }

  lemma {:induction false} AnswerLinesAreFilled(slots: Slots, categories: map<nat, string>)
    requires CleanSlots(slots, categories)
    ensures AnswerLines(Lines(slots)) == Filled(slots)
    decreases |slots|
  {
    if slots != [] {
      var front, last := slots[..|slots| - 1], slots[|slots| - 1];
      assert slots == front + [last];
      AnswerLinesAreFilled(front, categories);
      FilledAppend(front, [last]);
      assert [last][1..] == [];
      if last.Some? {
        assert CleanGroup(categories, |slots|, last.value);
        LineBack(last.value);
        AnswerLinesNext(Lines(front), Join(last.value, ", "));
      } else {
        assert Lines(front) + [] == Lines(front);
      }
    }
  }

  lemma AnswerLinesNext(lines: seq<string>, line: string)
    requires Trim(line) == line && |Items(line, "`*#-")| == GROUP_SIZE
    ensures AnswerLines(lines + [line]) == AnswerLines(lines) + [Items(line, "`*#-")]
  {
    assert (lines + [line])[..|lines|] == lines;
  }

  lemma AnswerGroupsAre(section: string, slots: Slots, categories: map<nat, string>)
    requires Unmarked(section) && CleanSlots(slots, categories)
    ensures AnswerGroups(Sections(section, "\n" + Join(Lines(slots), "\n"))) == Filled(slots)
    ensures AnswerBlock(Sections(section, "\n" + Join(Lines(slots), "\n"))).Some?
            && !AnswerBlock(Sections(section, "\n" + Join(Lines(slots), "\n"))).value.1
  {
    var lines := Lines(slots);
    LinesAreClean(slots, categories);
    AnswerLinesAreFilled(slots, categories);
    if lines == [] {
      assert "\n" + "" == "\n";
      NoAnswerLines();
    } else {
      JoinedLines(lines);
      TightTrim(Join(lines, "\n"));
    }
    AnswerFound(section, "\n" + Join(lines, "\n"));
  }

  lemma NoAnswerLines()
    ensures AnswerLines(SplitOn(Trim("\n"), '\n')) == []
  {
    assert "\n"[1..] == "";
    assert TrimStart("\n") == "" && Trim("\n") == "";
    assert SplitOn("", ',') == [""] && [""][1..] == [];
    assert Strip("", "`*#-") == "" && Trim("") == "";
    assert Items("", "`*#-") == [];
    assert [""][..0] == [];
  }

  // ----- the round trip -----

  /** What stands between the two markers. */
  function Section(slots: Slots, categories: map<nat, string>): string {
    "\n" + Join(Blocks(slots, categories), "\n\n") + "\n\n"
  }

  lemma PrintedAsSections(slots: Slots, categories: map<nat, string>)
    ensures FormatCompactAnswer(slots, categories)
            == Sections(Section(slots, categories), "\n" + Join(Lines(slots), "\n"))
  {
    var groups, answer := Join(Blocks(slots, categories), "\n\n"), Join(Lines(slots), "\n");
    FiveParts(GROUPS_MARKER, "\n", groups, "\n\n", ANSWER_MARKER, answer);
    assert "### GROUPS\n" == GROUPS_MARKER + "\n" && "\n\n### ANSWER\n" == "\n\n" + ANSWER_MARKER + "\n";
  }

  lemma FiveParts(a: string, f: string, g: string, b: string, m: string, r: string)
    ensures (a + f) + g + (b + m + f) + r == a + ((f + g + b) + (m + (f + r)))
  {
    Regroup(a, f, g, b);
    Regroup(m, f, r, "");
  }

  lemma SectionChunks(slots: Slots, categories: map<nat, string>)
    requires Printable(slots, categories)
    ensures Unmarked(Section(slots, categories))
    ensures ReadChunks(NOTHING, Chunks(Section(slots, categories))) == ReadBack(slots, categories)
  {
    var section := Section(slots, categories);
    if slots == [] {
      assert section == "\n\n\n";
      NothingToRead();
      assert Labels(slots, categories) == map[];
    } else {
      var chunks := PrintedChunks(slots, categories);
      JoinTrails(Blocks(slots, categories));
      BlocksTrailed(slots, categories);
      Regroup("\n", Join(Blocks(slots, categories), "\n\n"), "\n\n", "");
      assert section == "\n" + Concat(chunks);
      PrintedAreChunks(slots, categories);
      UnmarkedConcat("\n", Concat(chunks));
      SectionSplits(chunks);
      ReadAppend(NOTHING, ["\n"], chunks);
      ReadOne(NOTHING, "\n");
      ReadPrintedChunks(slots, categories);
    }
  }

  lemma NothingToRead()
    ensures ReadChunks(NOTHING, Chunks("\n\n\n")) == NOTHING
  {
    FindGroupNone("\n\n\n", 1);
    ReadOne(NOTHING, "\n\n\n");
  }

  ghost predicate HasHole(slots: Slots) {
    exists i :: 0 <= i < |slots| && slots[i].None?
  }

  lemma {:induction false} UnexplainedIsHole(g: Gathered, n: nat)
    requires g.wrongCount == {} && n <= |g.slots|
    ensures Unexplained(g, n) <==> HasHole(g.slots[..n])
  {
    if n > 0 {
      UnexplainedIsHole(g, n - 1);
      assert forall i :: 0 <= i < n - 1 ==> g.slots[..n][i] == g.slots[..n - 1][i];
      assert g.slots[..n][n - 1] == g.slots[n - 1];
    }
  }

  lemma TrimmedSlots(slots: Slots, categories: map<nat, string>)
    requires CleanSlots(slots, categories)
    ensures TrimSlots(slots) == slots
  {
    forall i | 0 <= i < |slots| ensures TrimSlots(slots)[i] == slots[i] {
      if slots[i].Some? {
        var words := slots[i].value;
        assert CleanGroup(categories, i + 1, words);
        forall k | 0 <= k < |words| ensures Trim(words[k]) == words[k] {
          assert CleanWord(words[k]);
          TightTrim(words[k]);
        }
        assert TrimAll(words) == words;
      }
    }
  }

  lemma {:induction false} FilledLast(slots: Slots)
    requires slots != [] && slots[|slots| - 1].Some?
    ensures Filled(slots) != []
  {
    var front, last := slots[..|slots| - 1], slots[|slots| - 1];
    FilledAppend(front, [last]);
    assert slots == front + [last];
  }

  /**
   Round trip: parsing what the printer prints gives back the proposals with the same
   holes, the shown categories, the filled groups in order, and no issue but a hole.
   */
  lemma RoundTrip(slots: Slots, categories: map<nat, string>)
    requires Printable(slots, categories)
    ensures Parse(FormatCompactAnswer(slots, categories))
            == ParsedAnswer(Filled(slots), slots, Labels(slots, categories),
                            if HasHole(slots) then {Unclassified} else {})
  {
    var answer := "\n" + Join(Lines(slots), "\n");
    PrintedAsSections(slots, categories);
    SectionChunks(slots, categories);
    SectionFound(Section(slots, categories), answer);
    AnswerGroupsAre(Section(slots, categories), slots, categories);
    FinishPrinted(slots, categories);
  }

  lemma FinishPrinted(slots: Slots, categories: map<nat, string>)
    requires Printable(slots, categories)
    ensures Finish(ReadBack(slots, categories), Filled(slots), false)
            == ParsedAnswer(Filled(slots), slots, Labels(slots, categories),
                            if HasHole(slots) then {Unclassified} else {})
  {
    assert TrimHoles(slots) == slots;
    TrimmedSlots(slots, categories);
    UnexplainedIsHole(ReadBack(slots, categories), |slots|);
    assert slots[..|slots|] == slots;
    if slots != [] {
      FilledLast(slots);
    }
  }

  lemma {:induction false} SameBlocks(slots: Slots, all: Slots, categories: map<nat, string>)
    requires slots <= all
    ensures Blocks(slots, Labels(all, categories)) == Blocks(slots, categories)
    decreases |slots|
  {
    if slots != [] {
      SameBlocks(slots[..|slots| - 1], all, categories);
    }
  }

  /** Printing what was parsed from a printed answer prints the same text again. */
  lemma ReprintIsFixed(slots: Slots, categories: map<nat, string>)
    requires Printable(slots, categories)
    ensures var r := Parse(FormatCompactAnswer(slots, categories));
            FormatCompactAnswer(r.proposalWords, r.categoryByGroup) == FormatCompactAnswer(slots, categories)
  {
    RoundTrip(slots, categories);
    SameBlocks(slots, slots, categories);
  }
}
