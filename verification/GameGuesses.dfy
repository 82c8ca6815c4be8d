/**
 The player's guesses (frontend/src/lib/gameReducer.ts): how a selection is judged, and
 what every sequence of actions remembers of it.
 */
module GameGuesses {
  import opened Collections
  import opened GameReducer
  import opened Options

  import P = Puzzles

  type Word = P.Word

  // ----- how a guess is judged -----

  /** The words of a category are counted once each. */
  lemma {:induction false} OverlapCounts(words: seq<Word>, selected: seq<Word>)
    requires Distinct(words)
    ensures Overlap(words, selected) == |Elems(words) * Elems(selected)|
  {
    if words != [] {
      OverlapCounts(words[1..], selected);
      assert words == [words[0]] + words[1..];
      assert Elems(words) == {words[0]} + Elems(words[1..]);
      assert words[0] !in Elems(words[1..]);
      P.OneMoreShared(words[0], Elems(words[1..]), Elems(selected));
    }
  }

  lemma {:induction false} LargestOverlapMeans(categories: seq<Category>, selected: seq<Word>)
    ensures forall c :: c in categories ==> Overlap(c.words, selected) <= LargestOverlap(categories, selected)
    ensures LargestOverlap(categories, selected) == 0
            || exists c :: c in categories && Overlap(c.words, selected) == LargestOverlap(categories, selected)
  {
    if categories != [] {
      LargestOverlapMeans(categories[1..], selected);
      assert categories == [categories[0]] + categories[1..];
      assert categories[0] in categories;
    }
  }

  function Shares(c: Category, words: seq<Word>): nat {
    |(set w | w in c.words && w in words)|
  }

  /**
   Any guess on a well-formed board: right exactly when it has four words and names all of
   some category; one away exactly when it is not right and the most it names of any
   category is three words.
   */
  lemma JudgedExactly(categories: seq<Category>, words: seq<Word>)
    requires WellFormed(categories)
    ensures var r := EvaluateGuess(categories, words);
            && (r.Correct? <==>
                  |words| == P.GROUP_SIZE && exists c :: c in categories && Shares(c, words) == P.GROUP_SIZE)
            && (r.Correct? ==> r.category in categories && Shares(r.category, words) == P.GROUP_SIZE)
            && (r == Wrong(OneAway) <==>
                  && r.Wrong?
                  && (exists c :: c in categories && Shares(c, words) == 3)
                  && (forall c :: c in categories ==> Shares(c, words) <= 3))
            && r != Wrong(Right)
  {
    FindMatchingMeans(categories, words);
    LargestOverlapMeans(categories, words);
    forall c | c in categories
      ensures Overlap(c.words, words) == Shares(c, words)
      ensures Matches(c, words) <==> |words| == P.GROUP_SIZE && Shares(c, words) == P.GROUP_SIZE
    {
      OverlapCounts(c.words, words);
      SharesAll(c, words);
    }
  }

  lemma SharesAll(c: Category, words: seq<Word>)
    requires |c.words| == P.GROUP_SIZE && Distinct(c.words)
    ensures Shares(c, words) == |Elems(c.words) * Elems(words)|
    ensures Contains(words, c.words) <==> Shares(c, words) == P.GROUP_SIZE
  {
    var shared := set w | w in c.words && w in words;
    assert shared == Elems(c.words) * Elems(words);
    ElemsSize(c.words);
    if |shared| == P.GROUP_SIZE {
      SubsetOfSameSize(shared, Elems(c.words));
      forall i | 0 <= i < |c.words| ensures c.words[i] in words {
        assert c.words[i] in shared;
      }
    }
    if Contains(words, c.words) {
      assert shared == Elems(c.words);
    }
  }

  lemma {:induction false} OwnerExactly(categories: seq<Category>, w: Word, i: nat)
    requires WellFormed(categories) || forall j, k | 0 <= j < |categories| && 0 <= k < |categories|
               && w in categories[j].words && w in categories[k].words :: j == k
    requires i < |categories| && w in categories[i].words
    ensures OwnerOf(categories, w) == categories[i].difficulty
  {
    if w !in categories[0].words {
      OwnerExactly(categories[1..], w, i - 1);
    }
  }

  // ----- what is remembered of the guesses -----

  /** A guess with the verdict its words get, next to the difficulties of the categories its words belong to. */
  ghost predicate RememberedAs(categories: seq<Category>, g: PriorGuess, difficulties: seq<Difficulty>) {
    && g.result == (match EvaluateGuess(categories, g.words) case Correct(_) => Right case Wrong(result) => result)
    && |difficulties| == |g.words|
    && forall k, i | 0 <= k < |g.words| && 0 <= i < |categories| && g.words[k] in categories[i].words
         :: difficulties[k] == categories[i].difficulty
  }

  /** Every guess is remembered, in both histories at the same place; at most four words are selected, once each. */
  ghost predicate Tidy(s: State) {
    && |s.guessHistory| == |s.priorGuesses|
    && (forall j :: 0 <= j < |s.priorGuesses| ==> RememberedAs(s.categories, s.priorGuesses[j], s.guessHistory[j]))
    && Distinct(s.selected) && |s.selected| <= MAX_SELECTED
  }

  lemma RememberTidy(s: State, words: seq<Word>, result: Verdict) returns (t: State)
    requires WellFormed(s.categories) && Tidy(s)
    requires result == match EvaluateGuess(s.categories, words) case Correct(_) => Right case Wrong(r) => r
    ensures t == Remember(s, words, result) && Tidy(t)
  {
    t := Remember(s, words, result);
    forall k, i | 0 <= k < |words| && 0 <= i < |s.categories| && words[k] in s.categories[i].words
      ensures DifficultiesForGuess(s.categories, words)[k] == s.categories[i].difficulty
    {
      OwnerExactly(s.categories, words[k], i);
    }
    assert RememberedAs(s.categories, PriorGuess(words, result), DifficultiesForGuess(s.categories, words));
  }

  lemma {:induction false} AiGroupsTidy(s: State, groups: seq<seq<Word>>) returns (t: State)
    requires WellFormed(s.categories) && Tidy(s)
    ensures t == AiGroups(s, groups) && t.categories == s.categories && Tidy(t)
    decreases |groups|
  {
    t := s;
    if groups != [] && s.status == Playing {
      match EvaluateGuess(s.categories, groups[0])
      case Correct(c) =>
        var u := RememberTidy(s, groups[0], Right);
        t := AiGroupsTidy(AiHit(s, groups[0], c), groups[1..]);
      case Wrong(result) =>
        var u := RememberTidy(s, groups[0], result);
        t := AiGroups(s, groups);
    }
  }

  lemma ReduceTidy(s: State, a: Action) returns (t: State)
    requires WellFormed(s.categories) && Tidy(s)
    ensures t == Reduce(s, a) && t.categories == s.categories && Tidy(t)
  {
    t := Reduce(s, a);
    match a
    case ToggleWord(word) => P.WithoutDistinct(s.selected, [word]); WithoutShorter(s.selected, [word]);
    case SubmitGuess =>
      if Takes(s) {
        match EvaluateGuess(s.categories, s.selected)
        case Correct(c) => var u := RememberTidy(s, s.selected, Right);
        case Wrong(result) => var u := RememberTidy(s, s.selected, result);
      }
    case AiSolveSuccess(groups) =>
      var u := AiGroupsTidy(s.(lastFailed := None, feedback := NoFeedback, shakeWords := []), groups);
    case _ =>
  }

  lemma {:induction false} WithoutShorter(pool: seq<Word>, words: seq<Word>)
    ensures |P.Without(pool, words)| <= |pool|
  {
    if pool != [] {
      WithoutShorter(pool[1..], words);
    }
  }

  /**
   Over every sequence of actions at all: each guess is remembered with the verdict its
   words get and the difficulties they belong to, and the selection stays within four
   different words.
   */
  lemma {:induction false} PlayTidy(s: State, actions: seq<Action>)
    requires WellFormed(s.categories) && Tidy(s)
    ensures Tidy(Play(s, actions)) && Play(s, actions).categories == s.categories
    decreases |actions|
  {
    if actions != [] {
      var t := ReduceTidy(s, actions[0]);
      PlayTidy(t, actions[1..]);
    }
  }

  // ----- one guess from the player -----

  /** A right guess, once confirmed: its category is solved, and the board is ready for the next guess. */
  lemma RightGuess(s: State, c: Category)
    requires WellFormed(s.categories) && Takes(s)
    requires c in s.categories && Shares(c, s.selected) == P.GROUP_SIZE
    ensures var t := Play(s, [SubmitGuess, ConfirmSolve]);
            && t.solved == s.solved + [c] && t.remaining == P.Without(s.remaining, c.words)
            && t.selected == [] && t.pending.None? && t.feedback == NoFeedback && t.shakeWords == []
            && t.mistakes == s.mistakes && t.priorGuesses == s.priorGuesses + [PriorGuess(s.selected, Right)]
            && t.status == if |t.solved| == |s.categories| then Won else Playing
  {
    JudgedExactly(s.categories, s.selected);
    var d := EvaluateGuess(s.categories, s.selected).category;
    OnlyOne(s.categories, s.selected, c, d);
    assert [SubmitGuess, ConfirmSolve][1..] == [ConfirmSolve];
    assert Play(s, [SubmitGuess, ConfirmSolve]) == Confirm(Submit(s));
  }

  /** Four words cannot name all of two categories. */
  lemma OnlyOne(categories: seq<Category>, words: seq<Word>, c: Category, d: Category)
    requires WellFormed(categories) && c in categories && d in categories && |words| == P.GROUP_SIZE
    requires Shares(c, words) == P.GROUP_SIZE && Shares(d, words) == P.GROUP_SIZE
    ensures c == d
  {
    SharesAll(c, words);
    SharesAll(d, words);
    ElemsSize(words);
    ElemsSize(c.words);
    ElemsSize(d.words);
    SubsetOfSameSize(Elems(c.words), Elems(words));
    SubsetOfSameSize(Elems(d.words), Elems(words));
    var i :| 0 <= i < |categories| && categories[i] == c;
    var j :| 0 <= j < |categories| && categories[j] == d;
    assert c.words[0] in Elems(d.words);
    assert c.words[0] in categories[i].words && c.words[0] in categories[j].words;
  }

  /** A wrong guess: one more mistake, the words shaken and no longer selected, and the same board. */
  lemma WrongGuess(s: State)
    requires WellFormed(s.categories) && Takes(s)
    requires forall c :: c in s.categories ==> Shares(c, s.selected) < P.GROUP_SIZE
    ensures var t := Reduce(s, SubmitGuess);
            && t.mistakes == s.mistakes + 1 && t.shakeWords == s.selected && t.selected == []
            && t.solved == s.solved && t.remaining == s.remaining && t.pending.None?
            && (t.feedback == OneAwayFeedback <==> exists c :: c in s.categories && Shares(c, s.selected) == 3)
            && t.feedback != NoFeedback
            && t.status == if t.mistakes >= MAX_MISTAKES then Lost else Playing
  {
    JudgedExactly(s.categories, s.selected);
  }

  /** Clearing the selection and then picking four different words selects just those, in that order. */
  lemma SelectsAfresh(s: State, words: seq<Word>)
    requires s.status == Playing && |words| == MAX_SELECTED && Distinct(words)
    ensures Play(s, [DeselectAll] + Toggles(words)) == s.(selected := words)
  {
    assert ([DeselectAll] + Toggles(words))[1..] == Toggles(words);
    assert words[0..] == words && words[..0] == [];
    SelectRest(s.(selected := []), words, 0);
  }

  // ----- doing it twice -----

  /** Submitting or confirming again right away does nothing: a click too many is harmless. */
  lemma TwiceIsOnce(s: State, a: Action)
    requires a == SubmitGuess || a == ConfirmSolve || a == DeselectAll || a == ClearFeedback
    ensures Reduce(Reduce(s, a), a) == Reduce(s, a)
  {
  }

  lemma {:induction false} WithoutAbsent(pool: seq<Word>, w: Word)
    requires w !in pool
    ensures P.Without(pool, [w]) == pool
  {
    if pool != [] {
      WithoutAbsent(pool[1..], w);
      assert pool == [pool[0]] + pool[1..];
    }
  }

  /** Toggling a word on and off again leaves the game as it was. */
  lemma ToggledBack(s: State, w: Word)
    requires w !in s.selected
    ensures var t := Reduce(s, ToggleWord(w));
            && (w in t.selected <==> s.status == Playing && |s.selected| < MAX_SELECTED)
            && (w in t.selected ==> Reduce(t, ToggleWord(w)) == s)
            && (w !in t.selected ==> t == s)
  {
    P.WithoutAppend(s.selected, [w], [w]);
    WithoutAbsent(s.selected, w);
    assert s.selected + [] == s.selected;
  }
}
