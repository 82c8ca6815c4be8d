/**
 Asides in parentheses and emphasis on a words line
 (packages/answer-grammar/src/parse-answer.ts): an aside never reaches a word, whatever
 text it stands in, and a line of dressed words with asides reads as its bare words. Such a
 line may stand on the words line of any group, as long as its asides hold nothing that ends
 a line, a group or a section.
 */
module AnswerAsides {
  import opened Options
  import opened AnswerGrammar
  import opened GrammarScans
  import opened AnswerRoundTrip

  // ----- no word read from a words line holds an aside -----

  /** No opening parenthesis with a closing one somewhere after it. */
  ghost predicate NoAside(s: string) {
    forall i, j :: 0 <= i < j < |s| && s[i] == '(' ==> s[j] != ')'
  }

  ghost predicate NoAsides(words: seq<string>) {
    forall i :: 0 <= i < |words| ==> NoAside(words[i])
  }

  lemma NoAsideCons(c: char, s: string)
    requires NoAside(s) && (c == '(' ==> ')' !in s)
    ensures NoAside([c] + s)
  {
  }

  lemma {:induction false} IndexOfNone(s: string, c: char, i: nat)
    requires i <= |s|
    ensures IndexOf(s, c, i).None? <==> forall k :: i <= k < |s| ==> s[k] != c
    decreases |s| - i
  {
    if i < |s| && s[i] != c {
      IndexOfNone(s, c, i + 1);
    }
  }

  lemma {:induction false} StrippedHasNone(s: string, i: nat)
    requires i <= |s|
    ensures NoAside(StripParentheticals(s, i))
    ensures (forall k :: i <= k < |s| ==> s[k] != ')') ==> ')' !in StripParentheticals(s, i)
    decreases |s| - i
  {
    if i < |s| {
      if s[i] == '(' && IndexOf(s, ')', i).Some? {
        StrippedHasNone(s, IndexOf(s, ')', i).value + 1);
      } else {
        IndexOfNone(s, ')', i);
        StrippedHasNone(s, i + 1);
        NoAsideCons(s[i], StripParentheticals(s, i + 1));
      }
    }
  }

  lemma {:induction false} PartsHaveNone(s: string, sep: char)
    requires NoAside(s)
    ensures NoAsides(SplitOn(s, sep))
    ensures ')' !in s ==> forall i :: 0 <= i < |SplitOn(s, sep)| ==> ')' !in SplitOn(s, sep)[i]
  {
    if s != "" {
      var rest := SplitOn(s[1..], sep);
      PartsHaveNone(s[1..], sep);
      if s[0] != sep {
        NoAsideCons(s[0], rest[0]);
      }
    }
  }

  lemma {:induction false} StripKeepsNone(s: string, chars: string)
    requires NoAside(s)
    ensures NoAside(Strip(s, chars)) && (')' !in s ==> ')' !in Strip(s, chars))
  {
    if s != "" {
      StripKeepsNone(s[1..], chars);
      if s[0] !in chars {
        NoAsideCons(s[0], Strip(s[1..], chars));
      }
    }
  }

  lemma {:induction false} TrimEndKeepsNone(s: string)
    requires NoAside(s)
    ensures NoAside(TrimEnd(s))
  {
    if s != "" && IsSpace(s[|s| - 1]) {
      TrimEndKeepsNone(s[..|s| - 1]);
    }
  }

  lemma {:induction false} TrimKeepsNone(s: string)
    requires NoAside(s)
    ensures NoAside(Trim(s))
  {
    if s != "" && IsSpace(s[0]) {
      TrimKeepsNone(s[1..]);
    } else {
      TrimEndKeepsNone(s);
    }
  }

  lemma {:induction false} CleanedHaveNone(parts: seq<string>, strip: string)
    requires NoAsides(parts)
    ensures NoAsides(Cleaned(parts, strip))
  {
    if parts != [] {
      CleanedHaveNone(parts[1..], strip);
      StripKeepsNone(parts[0], strip);
      TrimKeepsNone(Strip(parts[0], strip));
    }
  }

  ghost predicate SlotsHaveNone(slots: Slots) {
    forall i :: 0 <= i < |slots| && slots[i].Some? ==> NoAsides(slots[i].value)
  }

  lemma ReadWordsHaveNone(g: Gathered, n: nat, line: string)
    requires SlotsHaveNone(g.slots)
    ensures SlotsHaveNone(ReadWords(g, n, line).slots)
  {
    StrippedHasNone(line, 0);
    PartsHaveNone(StripParentheticals(line, 0), ',');
    CleanedHaveNone(SplitOn(StripParentheticals(line, 0), ','), "`*");
  }

  lemma {:induction false} ChunksHaveNone(g: Gathered, chunks: seq<string>)
    requires SlotsHaveNone(g.slots)
    ensures SlotsHaveNone(ReadChunks(g, chunks).slots)
    decreases |chunks|
  {
    if chunks != [] {
      var chunk := chunks[0];
      assert SlotsHaveNone(ReadChunk(g, chunk).slots) by {
        match FindGroup(chunk, 0)
        case None =>
        case Some(i) =>
          var n := HeadingNumber(chunk, i);
          var g1 := g.(maxGroupNum := if n > g.maxGroupNum then n else g.maxGroupNum);
          var g2 := match Field(chunk, 0, "category:")
            case Some(category) => g1.(categories := g1.categories[n := Trim(category)])
            case None => g1;
          match Field(chunk, 0, "words:")
          case Some(line) => ReadWordsHaveNone(g2, n, line);
          case None =>
      }
      ChunksHaveNone(ReadChunk(g, chunk), chunks[1..]);
    }
  }

  /**
   For every text at all: no word that was read from a words line, whichever group it
   became part of, holds an opening parenthesis with a closing one after it.
   */
  lemma NoAsideIsRead(text: string)
    ensures SlotsHaveNone(ReadChunks(NOTHING, Chunks(GroupsSection(text))).slots)
    ensures ReadChunks(NOTHING, Chunks(GroupsSection(text))).slots != [] ==> SlotsHaveNone(Parse(text).proposalWords)
    ensures AnswerGroups(text) == [] ==>
              SlotsHaveNone(Parse(text).proposalWords)
              && forall i :: 0 <= i < |Parse(text).groups| ==> NoAsides(Parse(text).groups[i])
  {
    ChunksHaveNone(NOTHING, Chunks(GroupsSection(text)));
    var slots := ReadChunks(NOTHING, Chunks(GroupsSection(text))).slots;
    TrimmedHaveNone(slots);
    FilledHaveNone(slots);
  }

  lemma TrimmedHaveNone(slots: Slots)
    requires SlotsHaveNone(slots)
    ensures SlotsHaveNone(TrimSlots(slots))
  {
    forall i | 0 <= i < |slots| && slots[i].Some? ensures NoAsides(TrimSlots(slots)[i].value) {
      forall k | 0 <= k < |slots[i].value| ensures NoAside(Trim(slots[i].value[k])) {
        TrimKeepsNone(slots[i].value[k]);
      }
    }
  }

  lemma {:induction false} FilledHaveNone(slots: Slots)
    requires SlotsHaveNone(slots)
    ensures forall i :: 0 <= i < |Filled(slots)| ==> NoAsides(Filled(slots)[i])
  {
    if slots != [] {
      FilledHaveNone(slots[1..]);
    }
  }

  // ----- a line of words with emphasis and asides -----

  /** A word of a line, the emphasis around it, and what is said about it. */
  datatype Item = Item(before: string, word: string, after: string, aside: Option<string>)

  function WordsOf(items: seq<Item>): seq<string> {
    seq(|items|, i requires 0 <= i < |items| => items[i].word)
  }

  ghost predicate Marks(s: string) {
    forall k :: 0 <= k < |s| ==> s[k] == '`' || s[k] == '*'
  }

  function Dressed(i: Item): string {
    i.before + (i.word + i.after)
  }

  function Said(i: Item): string {
    if i.aside.Some? then "(" + (i.aside.value + ")") else ""
  }

  function Spacer(i: Item): string {
    if i.aside.Some? then " " else ""
  }

  function ItemText(i: Item): string {
    Dressed(i) + (Spacer(i) + Said(i))
  }

  /** The line after its first item. */
  function ItemsTail(items: seq<Item>): string {
    if items == [] then "" else ", " + (ItemText(items[0]) + ItemsTail(items[1..]))
  }

  function ItemsLine(items: seq<Item>): string
    requires items != []
  {
    ItemText(items[0]) + ItemsTail(items[1..])
  }

  /** The same, without what stands in parentheses. */
  function BareTail(items: seq<Item>): string {
    if items == [] then "" else ", " + (Dressed(items[0]) + Spacer(items[0]) + BareTail(items[1..]))
  }

  /** Clean words in marks, and asides without a closing parenthesis of their own. */
  ghost predicate PlainItem(i: Item) {
    CleanWord(i.word) && Marks(i.before) && Marks(i.after) && (i.aside.Some? ==> ')' !in i.aside.value)
  }

  ghost predicate PlainItems(items: seq<Item>) {
    forall i :: 0 <= i < |items| ==> PlainItem(items[i])
  }

  lemma {:induction false} IndexShift(a: string, b: string, c: char, i: nat)
    requires i <= |b|
    ensures IndexOf(a + b, c, |a| + i)
            == match IndexOf(b, c, i) case Some(k) => Some(|a| + k) case None => None
    decreases |b| - i
  {
    if i < |b| {
      assert (a + b)[|a| + i] == b[i];
      if b[i] != c {
        IndexShift(a, b, c, i + 1);
      }
    }
  }

  /** Where the scan goes on from an opening parenthesis: after its closing one. */
  function NextAt(s: string, i: nat): (j: nat)
    requires i < |s|
    ensures i < j <= |s|
  {
    if s[i] == '(' && IndexOf(s, ')', i).Some? then IndexOf(s, ')', i).value + 1 else i + 1
  }

  /** What the scan leaves of the character at i, or of the aside that starts there. */
  function LeftAt(s: string, i: nat): string
    requires i < |s|
  {
    if s[i] == '(' && IndexOf(s, ')', i).Some? then "" else [s[i]]
  }

  lemma StripStep(s: string, i: nat)
    requires i < |s|
    ensures StripParentheticals(s, i) == LeftAt(s, i) + StripParentheticals(s, NextAt(s, i))
  {
    if LeftAt(s, i) == "" {
      assert "" + StripParentheticals(s, NextAt(s, i)) == StripParentheticals(s, NextAt(s, i));
    }
  }

  lemma NextShift(a: string, b: string, i: nat)
    requires i < |b|
    ensures NextAt(a + b, |a| + i) == |a| + NextAt(b, i) && LeftAt(a + b, |a| + i) == LeftAt(b, i)
  {
    IndexShift(a, b, ')', i);
  }

  lemma {:induction false} StripShift(a: string, b: string, i: nat)
    requires i <= |b|
    ensures StripParentheticals(a + b, |a| + i) == StripParentheticals(b, i)
    decreases |b| - i
  {
    if i < |b| {
      NextShift(a, b, i);
      StripStep(a + b, |a| + i);
      StripStep(b, i);
      StripShift(a, b, NextAt(b, i));
    }
  }

  lemma {:induction false} StripBefore(a: string, b: string, i: nat)
    requires i <= |a| && '(' !in a
    ensures StripParentheticals(a + b, i) == a[i..] + StripParentheticals(b, 0)
    decreases |a| - i
  {
    StripShift(a, b, 0);
    if i < |a| {
      assert (a + b)[i] == a[i];
      StripBefore(a, b, i + 1);
      OneBefore(a, i, StripParentheticals(b, 0));
    }
  }

  lemma OneBefore(a: string, i: nat, rest: string)
    requires i < |a|
    ensures a[i..] + rest == [a[i]] + (a[i + 1..] + rest)
  {
  }

  lemma {:induction false} ClosesAt(s: string, i: nat, k: nat)
    requires i <= k < |s| && s[k] == ')' && forall j :: i <= j < k ==> s[j] != ')'
    ensures IndexOf(s, ')', i) == Some(k)
    decreases k - i
  {
    if i < k {
      ClosesAt(s, i + 1, k);
    }
  }

  /** An aside goes whole, whatever it holds but a closing parenthesis. */
  lemma AsideGoes(aside: string, b: string)
    requires ')' !in aside
    ensures StripParentheticals("(" + (aside + ")") + b, 0) == StripParentheticals(b, 0)
  {
    var a := "(" + (aside + ")");
    ClosesAt(a + b, 0, |aside| + 1);
    StripShift(a, b, 0);
  }

  lemma DressedIs(i: Item)
    requires PlainItem(i)
    ensures '(' !in Dressed(i) && ',' !in Dressed(i) && '\n' !in Dressed(i) && '#' !in Dressed(i)
  {
    var chars := ",\n()`*#-";
    assert chars[0] == ',' && chars[1] == '\n' && chars[2] == '(' && chars[6] == '#';
    assert ',' in chars && '\n' in chars && '(' in chars && '#' in chars;
  }

  lemma ItemGoes(i: Item, rest: string)
    requires PlainItem(i)
    ensures StripParentheticals(ItemText(i) + rest, 0) == Dressed(i) + Spacer(i) + StripParentheticals(rest, 0)
  {
    DressedIs(i);
    if i.aside.Some? {
      assert ItemText(i) + rest == (Dressed(i) + " ") + (Said(i) + rest);
      StripBefore(Dressed(i) + " ", Said(i) + rest, 0);
      AsideGoes(i.aside.value, rest);
    } else {
      assert ItemText(i) + rest == Dressed(i) + rest;
      StripBefore(Dressed(i), rest, 0);
      assert Dressed(i) + "" == Dressed(i);
    }
  }

  lemma {:induction false} TailGoes(items: seq<Item>)
    requires PlainItems(items)
    ensures StripParentheticals(ItemsTail(items), 0) == BareTail(items)
  {
    if items != [] {
      TailGoes(items[1..]);
      ItemGoes(items[0], ItemsTail(items[1..]));
      StripBefore(", ", ItemText(items[0]) + ItemsTail(items[1..]), 0);
    }
  }

  // ----- the words of the bare line -----

  function SpacedItems(items: seq<Item>): seq<string> {
    if items == [] then [] else [" " + (Dressed(items[0]) + Spacer(items[0]))] + SpacedItems(items[1..])
  }

  lemma {:induction false} SplitBare(first: string, items: seq<Item>)
    requires ',' !in first && PlainItems(items)
    ensures SplitOn(first + BareTail(items), ',') == [first] + SpacedItems(items)
    decreases |items|
  {
    if items == [] {
      assert first + "" == first;
      SplitNone(first, ',');
    } else {
      var next := " " + (Dressed(items[0]) + Spacer(items[0]));
      DressedIs(items[0]);
      assert first + BareTail(items) == first + [','] + (next + BareTail(items[1..]));
      SplitFirst(first, ',', next + BareTail(items[1..]));
      SplitBare(next, items[1..]);
    }
  }

  lemma {:induction false} StripConcat(a: string, b: string, chars: string)
    ensures Strip(a + b, chars) == Strip(a, chars) + Strip(b, chars)
  {
    if a == "" {
      assert a + b == b;
    } else {
      assert (a + b)[1..] == a[1..] + b;
      StripConcat(a[1..], b, chars);
    }
  }

  lemma {:induction false} StripAll(s: string, chars: string)
    requires forall k :: 0 <= k < |s| ==> s[k] in chars
    ensures Strip(s, chars) == ""
  {
    if s != "" {
      StripAll(s[1..], chars);
    }
  }

  /** Stripping leaves a dressed word bare, for any characters that are stripped besides. */
  lemma Undressed(i: Item, chars: string)
    requires PlainItem(i) && '`' in chars && '*' in chars && forall c :: c in chars ==> c in ",\n()`*#-"
    ensures Strip(Dressed(i), chars) == i.word
  {
    StripConcat(i.before, i.word + i.after, chars);
    StripConcat(i.word, i.after, chars);
    StripAll(i.before, chars);
    StripAll(i.after, chars);
    LacksFewer(i.word, ",\n()`*#-", chars);
    StripNothing(i.word, chars);
    assert "" + (i.word + "") == i.word;
  }

  lemma TrimBoth(before: string, s: string, after: string)
    requires Tight(s) && (before == "" || before == " ") && (after == "" || after == " ")
    ensures Trim(before + (s + after)) == s
  {
    TightTrim(s);
    var t := s + after;
    assert TrimStart(t) == t;
    if before == " " {
      assert (before + t)[1..] == t;
    } else {
      assert before + t == t;
    }
    if after == " " {
      assert t[..|t| - 1] == s;
    } else {
      assert t == s;
    }
  }

  lemma PartIsWord(i: Item, before: string, chars: string)
    requires PlainItem(i) && (before == "" || before == " ") && ' ' !in chars
    requires '`' in chars && '*' in chars && forall c :: c in chars ==> c in ",\n()`*#-"
    ensures Trim(Strip(before + (Dressed(i) + Spacer(i)), chars)) == i.word
  {
    Undressed(i, chars);
    StripConcat(before, Dressed(i) + Spacer(i), chars);
    StripConcat(Dressed(i), Spacer(i), chars);
    StripNothing(before, chars);
    StripNothing(Spacer(i), chars);
    TrimBoth(before, i.word, Spacer(i));
  }

  lemma {:induction false} CleanedItems(items: seq<Item>, chars: string)
    requires PlainItems(items) && ' ' !in chars
    requires '`' in chars && '*' in chars && forall c :: c in chars ==> c in ",\n()`*#-"
    ensures Cleaned(SpacedItems(items), chars) == WordsOf(items)
  {
    if items != [] {
      PartIsWord(items[0], " ", chars);
      CleanedItems(items[1..], chars);
      assert SpacedItems(items)[1..] == SpacedItems(items[1..]);
      assert WordsOf(items) == [items[0].word] + WordsOf(items[1..]);
    }
  }

  /** A first part that cleans to the first word, and the rest of a bare line. */
  lemma BareParses(first: string, items: seq<Item>, chars: string)
    requires items != [] && PlainItems(items) && ' ' !in chars
    requires '`' in chars && '*' in chars && forall c :: c in chars ==> c in ",\n()`*#-"
    requires ',' !in first && Trim(Strip(first, chars)) == items[0].word
    ensures Items(first + BareTail(items[1..]), chars) == WordsOf(items)
  {
    SplitBare(first, items[1..]);
    CleanedItems(items[1..], chars);
    var parts := [first] + SpacedItems(items[1..]);
    assert parts[1..] == SpacedItems(items[1..]);
    assert WordsOf(items) == [items[0].word] + WordsOf(items[1..]);
  }

  // ----- reading the line -----

  ghost predicate SomeAside(items: seq<Item>) {
    exists i :: 0 <= i < |items| && items[i].aside.Some?
  }

  lemma SomeAsideFirst(items: seq<Item>)
    requires items != []
    ensures SomeAside(items) <==> items[0].aside.Some? || SomeAside(items[1..])
  {
    assert forall i :: 0 <= i < |items[1..]| ==> items[1..][i] == items[i + 1];
    assert forall i :: 0 < i < |items| ==> items[i] == items[1..][i - 1];
  }

  lemma {:induction false} TailShrinks(items: seq<Item>)
    ensures |BareTail(items)| <= |ItemsTail(items)|
    ensures SomeAside(items) ==> |BareTail(items)| < |ItemsTail(items)|
    ensures !SomeAside(items) ==> BareTail(items) == ItemsTail(items)
  {
    if items != [] {
      TailShrinks(items[1..]);
      SomeAsideFirst(items);
    }
  }

  /** What stripping leaves of a line, and that it leaves it alone exactly when nothing is said aside. */
  lemma LineStrips(items: seq<Item>)
    requires items != [] && PlainItems(items)
    ensures var bare := Dressed(items[0]) + Spacer(items[0]) + BareTail(items[1..]);
            && StripParentheticals(ItemsLine(items), 0) == bare
            && (bare == ItemsLine(items) <==> !SomeAside(items))
  {
    ItemGoes(items[0], ItemsTail(items[1..]));
    TailGoes(items[1..]);
    TailShrinks(items[1..]);
    SomeAsideFirst(items);
  }

  /**
   Reading a line of dressed words with asides, for any number of words: four words fill
   the slot, any other number is flagged; and the line is flagged exactly when something
   is said aside.
   */
  lemma ReadItems(g: Gathered, n: nat, items: seq<Item>)
    requires items != [] && PlainItems(items)
    ensures var issues := g.issues + if SomeAside(items) then {ParentheticalStripped} else {};
            ReadWords(g, n, ItemsLine(items))
            == if |items| == GROUP_SIZE then g.(issues := issues, slots := SetSlot(g.slots, n, WordsOf(items)))
               else g.(issues := issues + {GroupCountOff}, wrongCount := g.wrongCount + {n})
  {
    LineStrips(items);
    DressedIs(items[0]);
    PartIsWord(items[0], "", "`*");
    assert "" + (Dressed(items[0]) + Spacer(items[0])) == Dressed(items[0]) + Spacer(items[0]);
    BareParses(Dressed(items[0]) + Spacer(items[0]), items, "`*");
  }

  // ----- the line as part of a printed group -----

  /** An aside that holds no line break, and no two number signs in a row. */
  ghost predicate CleanAside(aside: Option<string>) {
    aside.Some? ==> '\n' !in aside.value && Unmarked(aside.value + ")")
  }

  /** And no group heading or category label of its own. */
  ghost predicate CleanItem(categories: map<nat, string>, n: nat, i: Item) {
    && PlainItem(i)
    && CleanAside(i.aside) && (i.aside.Some? ==> NoGroup(i.aside.value))
    && (!Named(categories, n) ==>
          NoLabel(i.word, "category:") && (i.aside.Some? ==> NoLabel(i.aside.value, "category:")))
  }

  ghost predicate CleanItems(categories: map<nat, string>, n: nat, items: seq<Item>) {
    && items != [] && (Named(categories, n) ==> CleanCategory(categories[n]))
    && forall i :: 0 <= i < |items| ==> CleanItem(categories, n, items[i])
  }

  /** What may follow an item. */
  predicate Follows(rest: string) {
    rest == "" || rest[0] == ','
  }

  lemma DressedNoGroup(i: Item, rest: string)
    requires PlainItem(i) && NoGroup(rest) && (Follows(rest) || IsParen(rest))
    ensures NoGroup(Dressed(i) + (Spacer(i) + rest))
  {
    var tail := Spacer(i) + rest;
    if i.after == "" {
      assert i.word + i.after == i.word;
      if Spacer(i) == "" {
        assert tail == rest;
        NoGroupConcat(i.word, rest);
      } else {
        NoGroupSpace(i.word, " ");
        NoGroupConcat(i.word + " ", rest);
        assert i.word + tail == (i.word + " ") + rest;
      }
    } else {
      NoGroupPrefix(i.after + Spacer(i), rest);
      assert i.after + tail == (i.after + Spacer(i)) + rest;
      NoGroupConcat(i.word, i.after + tail);
      assert i.word + (i.after + tail) == (i.word + i.after) + tail;
    }
    NoGroupPrefix(i.before, (i.word + i.after) + tail);
    assert Dressed(i) + tail == i.before + ((i.word + i.after) + tail);
  }

  predicate IsParen(rest: string) {
    rest != "" && rest[0] == '('
  }

  lemma SaidNoGroup(aside: string, rest: string)
    requires NoGroup(aside) && NoGroup(rest)
    ensures NoGroup("(" + (aside + ")") + rest)
  {
    NoGroupPrefix(")", rest);
    NoGroupConcat(aside, ")" + rest);
    NoGroupPrefix("(", aside + (")" + rest));
    assert "(" + (aside + ")") + rest == "(" + (aside + (")" + rest));
  }

  lemma ItemNoGroup(i: Item, rest: string)
    requires PlainItem(i) && (i.aside.Some? ==> NoGroup(i.aside.value)) && NoGroup(rest) && Follows(rest)
    ensures NoGroup(ItemText(i) + rest)
  {
    if i.aside.Some? {
      SaidNoGroup(i.aside.value, rest);
    } else {
      assert Said(i) + rest == rest;
    }
    DressedNoGroup(i, Said(i) + rest);
    ItemRegroup(i, rest);
  }

  lemma ItemRegroup(i: Item, rest: string)
    ensures ItemText(i) + rest == Dressed(i) + (Spacer(i) + (Said(i) + rest))
    ensures ItemText(i) + rest == i.before + (i.word + (i.after + Spacer(i) + (Said(i) + rest)))
  {
  }

  lemma {:induction false} TailItemsNoGroup(items: seq<Item>)
    requires PlainItems(items)
    requires forall i :: 0 <= i < |items| && items[i].aside.Some? ==> NoGroup(items[i].aside.value)
    ensures NoGroup(ItemsTail(items)) && Follows(ItemsTail(items))
  {
    if items != [] {
      TailItemsNoGroup(items[1..]);
      ItemNoGroup(items[0], ItemsTail(items[1..]));
      NoGroupPrefix(", ", ItemText(items[0]) + ItemsTail(items[1..]));
    }
  }

  ghost predicate Unlabelled(i: Item) {
    NoLabel(i.word, "category:") && (i.aside.Some? ==> NoLabel(i.aside.value, "category:"))
  }

  lemma LabelThen(a: string, b: string)
    requires NoLabel(a, "category:") && NoLabel(b, "category:")
    requires b == "" || b[0] in " ,()`*"
    ensures NoLabel(a + b, "category:")
  {
    if b == "" {
      assert a + b == a;
    } else {
      NoLabelConcat(a, b, "category:");
    }
  }

  lemma SaidNoLabel(aside: string, rest: string)
    requires NoLabel(aside, "category:") && NoLabel(rest, "category:")
    ensures NoLabel("(" + (aside + ")") + rest, "category:")
  {
    NoLabelPrefix(")", rest, "category:");
    LabelThen(aside, ")" + rest);
    NoLabelPrefix("(", aside + (")" + rest), "category:");
    assert "(" + (aside + ")") + rest == "(" + (aside + (")" + rest));
  }

  lemma ItemNoLabel(i: Item, rest: string)
    requires PlainItem(i) && Unlabelled(i) && NoLabel(rest, "category:") && Follows(rest)
    ensures NoLabel(ItemText(i) + rest, "category:")
  {
    var said := Said(i) + rest;
    if i.aside.Some? {
      SaidNoLabel(i.aside.value, rest);
    } else {
      assert said == rest;
    }
    var tail := i.after + Spacer(i) + said;
    NoLabelPrefix(i.after + Spacer(i), said, "category:");
    LabelThen(i.word, tail);
    NoLabelPrefix(i.before, i.word + tail, "category:");
    ItemRegroup(i, rest);
  }

  lemma {:induction false} TailItemsNoLabel(items: seq<Item>)
    requires PlainItems(items) && forall i :: 0 <= i < |items| ==> Unlabelled(items[i])
    ensures NoLabel(ItemsTail(items), "category:") && Follows(ItemsTail(items))
  {
    if items != [] {
      TailItemsNoLabel(items[1..]);
      ItemNoLabel(items[0], ItemsTail(items[1..]));
      NoLabelPrefix(", ", ItemText(items[0]) + ItemsTail(items[1..]), "category:");
    }
  }

  /** One line, without a marker whatever line follows. */
  ghost predicate OneLine(s: string) {
    '\n' !in s && Unmarked(s)
  }

  lemma OneLineConcat(a: string, b: string)
    requires OneLine(a) && OneLine(b)
    ensures OneLine(a + b)
  {
    UnmarkedConcat(a, b);
  }

  lemma ItemTextIs(i: Item)
    requires PlainItem(i) && CleanAside(i.aside)
    ensures Tight(ItemText(i)) && OneLine(ItemText(i))
  {
    DressedIs(i);
    if i.aside.Some? {
      UnmarkedConcat("(", i.aside.value + ")");
    }
    OneLineConcat(Spacer(i), Said(i));
    OneLineConcat(Dressed(i), Spacer(i) + Said(i));
    assert i.aside.Some? ==> ItemText(i)[|ItemText(i)| - 1] == ')';
  }

  lemma {:induction false} TailIs(items: seq<Item>)
    requires PlainItems(items) && forall i :: 0 <= i < |items| ==> CleanAside(items[i].aside)
    ensures OneLine(ItemsTail(items))
    ensures ItemsTail(items) != "" ==> !IsSpace(ItemsTail(items)[|ItemsTail(items)| - 1])
  {
    if items != [] {
      var text, rest := ItemText(items[0]), ItemsTail(items[1..]);
      TailIs(items[1..]);
      ItemTextIs(items[0]);
      OneLineConcat(text, rest);
      OneLineConcat(", ", text + rest);
      JoinedEnd(text, rest);
    }
  }

  lemma JoinedEnd(text: string, rest: string)
    requires Tight(text) && (rest != "" ==> !IsSpace(rest[|rest| - 1]))
    ensures !IsSpace((", " + (text + rest))[|text + rest| + 1])
  {
    var all := ", " + (text + rest);
    assert all[|text| + 1] == text[|text| - 1];
    assert rest != "" ==> all[|text + rest| + 1] == rest[|rest| - 1];
  }

  /** So such a line may stand on the words line of a printed group. */
  lemma ItemsLineIsClean(categories: map<nat, string>, n: nat, items: seq<Item>)
    requires CleanItems(categories, n, items)
    ensures PlainItems(items) && CleanLine(categories, n, ItemsLine(items))
  {
    assert forall i :: 0 <= i < |items| ==> CleanItem(categories, n, items[i]);
    ItemTextIs(items[0]);
    TailIs(items[1..]);
    OneLineConcat(ItemText(items[0]), ItemsTail(items[1..]));
    UnmarkedConcat(ItemsLine(items), "\n");
    TailItemsNoGroup(items[1..]);
    ItemNoGroup(items[0], ItemsTail(items[1..]));
    if !Named(categories, n) {
      TailItemsNoLabel(items[1..]);
      ItemNoLabel(items[0], ItemsTail(items[1..]));
    }
  }
}
