/**
 The player's game and its AI assist: gameReducer and its helpers
 (frontend/src/lib/gameReducer.ts), over every sequence of actions. Some things hold
 whatever is dispatched; that no category is solved twice, and that "won" and "lost" mean
 what they say, holds as long as submitted words are still on the board and no AI answer
 lands during a pending solve, and fails exactly where a step breaks one of the two.
 */
module GameReducer {
  import opened Collections
  import opened Options
  import opened Puzzles

  datatype Difficulty = Yellow | Green | Blue | Purple

  datatype Category = Category(id: nat, words: seq<Word>, difficulty: Difficulty)

  datatype Verdict = Right | Incorrect | OneAway

  datatype PriorGuess = PriorGuess(words: seq<Word>, result: Verdict)

  datatype Status = Playing | Won | Lost

  datatype Feedback = OneAwayFeedback | IncorrectFeedback | NoFeedback

  /** The parts of the game state that actions other than loading and error texts change. */
  datatype State = State(
    categories: seq<Category>,
    remaining: seq<Word>,
    selected: seq<Word>,
    solved: seq<Category>,
    mistakes: nat,
    status: Status,
    feedback: Feedback,
    shakeWords: seq<Word>,
    pending: Option<Category>,
    guessHistory: seq<seq<Difficulty>>,
    priorGuesses: seq<PriorGuess>,
    lastFailed: Option<PriorGuess>)

  datatype Action =
    | ToggleWord(word: Word)
    | SubmitGuess
    | DeselectAll
    | ClearFeedback
    | AiSolveSuccess(groups: seq<seq<Word>>)
    | Shuffle(words: seq<Word>)
    | ConfirmSolve

  const MAX_SELECTED := 4
  const MAX_MISTAKES := 4

  // ----- judging a guess -----

  predicate Contains(outer: seq<Word>, inner: seq<Word>) {
    forall i :: 0 <= i < |inner| ==> inner[i] in outer
  }

  predicate Matches(c: Category, selected: seq<Word>) {
    |c.words| == |selected| && Contains(selected, c.words)
  }

  function FindMatching(categories: seq<Category>, selected: seq<Word>): Option<Category> {
    if categories == [] then None
    else if Matches(categories[0], selected) then Some(categories[0])
    else FindMatching(categories[1..], selected)
  }

  function Overlap(words: seq<Word>, selected: seq<Word>): nat {
    if words == [] then 0 else (if words[0] in selected then 1 else 0) + Overlap(words[1..], selected)
  }

  function LargestOverlap(categories: seq<Category>, selected: seq<Word>): nat {
    if categories == [] then 0
    else
      var rest := LargestOverlap(categories[1..], selected);
      if Overlap(categories[0].words, selected) > rest then Overlap(categories[0].words, selected) else rest
  }

  datatype Outcome = Correct(category: Category) | Wrong(result: Verdict)

  function EvaluateGuess(categories: seq<Category>, words: seq<Word>): Outcome {
    match FindMatching(categories, words)
    case Some(c) => Correct(c)
    case None => Wrong(if LargestOverlap(categories, words) == 3 then OneAway else Incorrect)
  }

  function OwnerOf(categories: seq<Category>, word: Word): Difficulty {
    if categories == [] then Yellow
    else if word in categories[0].words then categories[0].difficulty
    else OwnerOf(categories[1..], word)
  }

  function DifficultiesForGuess(categories: seq<Category>, selected: seq<Word>): seq<Difficulty> {
    seq(|selected|, i requires 0 <= i < |selected| => OwnerOf(categories, selected[i]))
  }

  // ----- the reducer -----

  function WrongFeedback(result: Verdict): Feedback {
    if result == OneAway then OneAwayFeedback else IncorrectFeedback
  }

  function Remember(s: State, words: seq<Word>, result: Verdict): State {
    s.(guessHistory := s.guessHistory + [DifficultiesForGuess(s.categories, words)],
       priorGuesses := s.priorGuesses + [PriorGuess(words, result)])
  }

  function Miss(s: State, words: seq<Word>, result: Verdict): State {
    Remember(s, words, result).(
    mistakes := s.mistakes + 1,
    shakeWords := words,
    status := if s.mistakes + 1 >= MAX_MISTAKES then Lost else Playing,
    feedback := WrongFeedback(result))
  }

  /** The guard of SUBMIT_GUESS. */
  predicate Takes(s: State) {
    s.status == Playing && |s.selected| == MAX_SELECTED && s.pending.None?
  }

  function Submit(s: State): State {
    if !Takes(s) then s
    else match EvaluateGuess(s.categories, s.selected)
      case Correct(c) => Remember(s, s.selected, Right).(pending := Some(c), feedback := NoFeedback, shakeWords := [])
      case Wrong(result) => Miss(s, s.selected, result).(selected := [])
  }

  predicate HasId(solved: seq<Category>, id: nat) {
    exists i :: 0 <= i < |solved| && solved[i].id == id
  }

  /** One correct group of an AI batch. */
  function AiHit(s: State, items: seq<Word>, c: Category): State {
    var t := if HasId(s.solved, c.id) then s
             else s.(solved := s.solved + [c], remaining := Without(s.remaining, c.words));
    var u := Remember(t, items, Right);
    u.(lastFailed := None, status := if u.remaining == [] then Won else u.status)
  }

  function AiGroups(s: State, groups: seq<seq<Word>>): State
    decreases |groups|
  {
    if groups == [] || s.status != Playing then s
    else match EvaluateGuess(s.categories, groups[0])
      case Correct(c) => AiGroups(AiHit(s, groups[0], c), groups[1..])
      case Wrong(result) => Miss(s, groups[0], result).(lastFailed := Some(PriorGuess(groups[0], result)))
  }

  function AiBatch(s: State, groups: seq<seq<Word>>): State {
    var t := AiGroups(s.(lastFailed := None, feedback := NoFeedback, shakeWords := []), groups);
    if t.status == Won || t.remaining == [] then t.(lastFailed := None) else t
  }

  function Confirm(s: State): State {
    match s.pending
    case None => s
    case Some(c) =>
      var solved := s.solved + [c];
      s.(solved := solved, remaining := Without(s.remaining, c.words), selected := [], pending := None,
         status := if |solved| == |s.categories| then Won else Playing)
  }

  function Reduce(s: State, a: Action): State {
    match a
    case ToggleWord(word) =>
      if s.status != Playing then s
      else if word in s.selected then s.(selected := Without(s.selected, [word]))
      else if |s.selected| >= MAX_SELECTED then s
      else s.(selected := s.selected + [word])
    case SubmitGuess => Submit(s)
    case DeselectAll => s.(selected := [])
    case ClearFeedback => s.(feedback := NoFeedback, shakeWords := [])
    case AiSolveSuccess(groups) => AiBatch(s, groups)
    case Shuffle(words) => s.(remaining := words)
    case ConfirmSolve => Confirm(s)
  }

  function Init(categories: seq<Category>, remaining: seq<Word>): State {
    State(categories, remaining, [], [], 0, Playing, NoFeedback, [], None, [], [], None)
  }

  function Play(s: State, actions: seq<Action>): State
    decreases |actions|
  {
    if actions == [] then s else Play(Reduce(s, actions[0]), actions[1..])
  }

  /** AI_SOLVE_SUCCESS as the reducer writes it: one loop over local copies. */
  method SolveWithAi(state: State, groups: seq<seq<Word>>) returns (next: State)
    ensures next == Reduce(state, AiSolveSuccess(groups))
  {
    var solved, remaining := state.solved, state.remaining;
    var mistakes: nat := state.mistakes;
    var guessHistory, priorGuesses := state.guessHistory, state.priorGuesses;
    var lastFailed: Option<PriorGuess> := None;
    var status, feedback := state.status, NoFeedback;
    var shakeWords: seq<Word> := [];
    ghost var start := state.(lastFailed := None, feedback := NoFeedback, shakeWords := []);
    ghost var s := start;
    var i := 0;
    while i < |groups| && status == Playing
      invariant i <= |groups|
      invariant s == state.(solved := solved, remaining := remaining, mistakes := mistakes, status := status,
                            feedback := feedback, shakeWords := shakeWords, guessHistory := guessHistory,
                            priorGuesses := priorGuesses, lastFailed := lastFailed)
      invariant AiGroups(start, groups) == AiGroups(s, groups[i..])
      decreases |groups| - i
    {
      var items := groups[i];
      ghost var rest := groups[i..];
      assert rest[0] == items && rest[1..] == groups[i + 1..];
      var outcome := EvaluateGuess(state.categories, items);
      guessHistory := guessHistory + [DifficultiesForGuess(state.categories, items)];
      if outcome.Correct? {
        s := AiHit(s, items, outcome.category);
        if !HasId(solved, outcome.category.id) {
          solved := solved + [outcome.category];
          remaining := Without(remaining, outcome.category.words);
        }
        lastFailed := None;
        priorGuesses := priorGuesses + [PriorGuess(items, Right)];
        if remaining == [] {
          status := Won;
        }
        i := i + 1;
        continue;
      }
      s := Miss(s, items, outcome.result).(lastFailed := Some(PriorGuess(items, outcome.result)));
      mistakes := mistakes + 1;
      lastFailed := Some(PriorGuess(items, outcome.result));
      status := if mistakes >= MAX_MISTAKES then Lost else Playing;
      feedback := WrongFeedback(outcome.result);
      shakeWords := items;
      priorGuesses := priorGuesses + [PriorGuess(items, outcome.result)];
      i := |groups|;
      assert groups[i..] == [];
    }
    var puzzleSolved := status == Won || remaining == [];
    next := state.(solved := solved, remaining := remaining, mistakes := mistakes, status := status,
    feedback := feedback, shakeWords := shakeWords, guessHistory := guessHistory, priorGuesses := priorGuesses,
    lastFailed := if puzzleSolved then None else lastFailed);
  }

  // ----- what every sequence of actions keeps -----

  /** Four different words a category, no word in two categories, no id twice. */
  ghost predicate WellFormed(categories: seq<Category>) {
    && categories != []
    && (forall i :: 0 <= i < |categories| ==> |categories[i].words| == GROUP_SIZE && Distinct(categories[i].words))
    && (forall i, j :: 0 <= i < j < |categories| ==> categories[i].id != categories[j].id)
    && (forall i, j, w | 0 <= i < |categories| && 0 <= j < |categories|
                         && w in categories[i].words && w in categories[j].words :: i == j)
  }

  ghost predicate InSome(categories: seq<Category>, w: Word) {
    exists i :: 0 <= i < |categories| && w in categories[i].words
  }

  /** The words left are all words minus the solved ones. */
  ghost predicate WordsLeft(s: State) {
    forall w :: w in s.remaining <==> InSome(s.categories, w) && !InSome(s.solved, w)
  }

  function WrongIn(prior: seq<PriorGuess>): nat {
    if prior == [] then 0 else WrongIn(prior[..|prior| - 1]) + if prior[|prior| - 1].result == Right then 0 else 1
  }

  /** Holds over all sequences of actions. */
  ghost predicate Base(s: State) {
    && WordsLeft(s)
    && s.mistakes == WrongIn(s.priorGuesses) && |s.guessHistory| == |s.priorGuesses|
    && (forall c :: c in s.solved ==> c in s.categories)
    && (s.pending.Some? ==> s.pending.value in s.categories)
  }

  /** A shuffle permutes the words left. */
  ghost predicate Permutes(s: State, a: Action) {
    a.Shuffle? ==> multiset(a.words) == multiset(s.remaining)
  }

  ghost predicate AllPermute(s: State, actions: seq<Action>)
    decreases |actions|
  {
    actions != [] ==> Permutes(s, actions[0]) && AllPermute(Reduce(s, actions[0]), actions[1..])
  }

  lemma {:induction false} FindMatchingMeans(categories: seq<Category>, words: seq<Word>)
    ensures match FindMatching(categories, words)
            case Some(c) => c in categories && Matches(c, words)
            case None => forall c :: c in categories ==> !Matches(c, words)
  {
    if categories != [] && !Matches(categories[0], words) {
      FindMatchingMeans(categories[1..], words);
    }
  }

  lemma InSomeAppend(solved: seq<Category>, c: Category, w: Word)
    ensures InSome(solved + [c], w) <==> InSome(solved, w) || w in c.words
  {
    assert (solved + [c])[|solved|] == c;
    assert forall i :: 0 <= i < |solved| ==> (solved + [c])[i] == solved[i];
  }

  lemma RememberBase(s: State, words: seq<Word>, result: Verdict) returns (t: State)
    ensures t == Remember(s, words, result)
    ensures WrongIn(t.priorGuesses) == WrongIn(s.priorGuesses) + if result == Right then 0 else 1
    ensures |s.guessHistory| == |s.priorGuesses| ==> |t.guessHistory| == |t.priorGuesses|
  {
    t := Remember(s, words, result);
  }

  /** Solving a category takes exactly its words off the board. */
  lemma SolveLeaves(s: State, c: Category) returns (t: State)
    requires WordsLeft(s)
    ensures t == s.(solved := s.solved + [c], remaining := Without(s.remaining, c.words))
    ensures WordsLeft(t)
  {
    t := s.(solved := s.solved + [c], remaining := Without(s.remaining, c.words));
    forall w ensures w in t.remaining <==> InSome(t.categories, w) && !InSome(t.solved, w) {
      InSomeAppend(s.solved, c, w);
    }
  }

  lemma AiHitBase(s: State, items: seq<Word>, c: Category) returns (t: State)
    requires Base(s) && c in s.categories
    ensures t == AiHit(s, items, c) && Base(t) && t.categories == s.categories
  {
    var u := s;
    if !HasId(s.solved, c.id) {
      u := SolveLeaves(s, c);
    }
    var v := RememberBase(u, items, Right);
    t := AiHit(s, items, c);
    assert t.remaining == v.remaining && t.solved == v.solved && t.priorGuesses == v.priorGuesses;
  }

  lemma {:induction false} AiGroupsBase(s: State, groups: seq<seq<Word>>) returns (t: State)
    requires Base(s)
    ensures t == AiGroups(s, groups) && Base(t)
    decreases |groups|
  {
    t := s;
    if groups != [] && s.status == Playing {
      FindMatchingMeans(s.categories, groups[0]);
      match EvaluateGuess(s.categories, groups[0])
      case Correct(c) =>
        var u := AiHitBase(s, groups[0], c);
        t := AiGroupsBase(u, groups[1..]);
      case Wrong(result) =>
        t := RememberBase(s, groups[0], result);
        t := AiGroups(s, groups);
    }
  }

  lemma SubmitBase(s: State) returns (t: State)
    requires Base(s)
    ensures t == Submit(s) && Base(t)
  {
    t := Submit(s);
    FindMatchingMeans(s.categories, s.selected);
    match EvaluateGuess(s.categories, s.selected)
    case Correct(c) =>
      var u := RememberBase(s, s.selected, Right);
    case Wrong(result) =>
      var u := RememberBase(s, s.selected, result);
  }

  lemma ReduceBase(s: State, a: Action) returns (t: State)
    requires Base(s) && Permutes(s, a)
    ensures t == Reduce(s, a) && Base(t)
  {
    t := Reduce(s, a);
    if a.SubmitGuess? {
      t := SubmitBase(s);
    } else if a.AiSolveSuccess? {
      var u := AiGroupsBase(s.(lastFailed := None, feedback := NoFeedback, shakeWords := []), a.groups);
    } else if a.ConfirmSolve? && s.pending.Some? {
      var u := SolveLeaves(s, s.pending.value);
    } else if a.Shuffle? {
      forall w ensures w in t.remaining <==> w in s.remaining {
        assert w in t.remaining <==> w in multiset(t.remaining);
      }
    }
  }

  /**
   Over every sequence of actions whose shuffles permute: the words left are all
   words minus the solved ones, mistakes counts the wrong guesses, and the two
   histories have the same length.
   */
  lemma {:induction false} PlayBase(s: State, actions: seq<Action>)
    requires Base(s) && AllPermute(s, actions)
    ensures Base(Play(s, actions))
    decreases |actions|
  {
    if actions != [] {
      var t := ReduceBase(s, actions[0]);
      PlayBase(t, actions[1..]);
    }
  }

  // ----- what every legal sequence keeps -----

  /** No category solved twice, won exactly when no words remain, lost exactly at four mistakes. */
  ghost predicate Core(s: State) {
    && Distinct(s.solved)
    && (s.status == Won <==> s.remaining == [])
    && (s.status == Lost <==> s.mistakes == MAX_MISTAKES) && s.mistakes <= MAX_MISTAKES
  }

  ghost predicate Good(s: State) {
    && WellFormed(s.categories) && Base(s) && Core(s)
    && (s.pending.Some? ==> s.status == Playing && s.pending.value !in s.solved)
  }

  /** A guess is only submitted with words still on the board, and no AI answer lands during a pending solve. */
  ghost predicate Legal(s: State, a: Action) {
    && Permutes(s, a)
    && (a.SubmitGuess? ==> Contains(s.remaining, s.selected))
    && (a.AiSolveSuccess? ==> s.pending.None?)
  }

  /** The words of an unsolved category are on the board; those of a solved one are not. */
  lemma OnBoardMeans(s: State, c: Category, w: Word)
    requires WellFormed(s.categories) && Base(s) && c in s.categories && w in c.words
    ensures w in s.remaining <==> c !in s.solved
  {
    assert InSome(s.categories, w);
    if InSome(s.solved, w) {
      var i :| 0 <= i < |s.solved| && w in s.solved[i].words;
      assert s.solved[i] in s.categories;
    }
  }

  lemma NoneRemain(s: State)
    requires WellFormed(s.categories) && Base(s)
    ensures s.remaining == [] <==> forall c :: c in s.categories ==> c in s.solved
  {
    forall c | c in s.categories ensures s.remaining == [] ==> c in s.solved {
      OnBoardMeans(s, c, c.words[0]);
    }
    if s.remaining != [] {
      var w := s.remaining[0];
      assert InSome(s.categories, w);
      var i :| 0 <= i < |s.categories| && w in s.categories[i].words;
      OnBoardMeans(s, s.categories[i], w);
    }
  }

  lemma SolvedCount(s: State)
    requires WellFormed(s.categories) && Base(s) && Distinct(s.solved)
    ensures |s.solved| == |s.categories| <==> forall c :: c in s.categories ==> c in s.solved
  {
    ElemsSize(s.solved);
    ElemsSize(s.categories);
    if |s.solved| == |s.categories| {
      SubsetOfSameSize(Elems(s.solved), Elems(s.categories));
      forall c | c in s.categories ensures c in s.solved {
        assert c in Elems(s.categories);
      }
    }
    assert (forall c :: c in s.categories ==> c in s.solved) ==> Elems(s.solved) == Elems(s.categories);
  }

  lemma AiHitCore(s: State, items: seq<Word>, c: Category) returns (t: State)
    requires WellFormed(s.categories) && Base(s) && Core(s) && s.status == Playing && c in s.categories
    ensures t == AiHit(s, items, c) && t.categories == s.categories && t.pending == s.pending
    ensures Base(t) && Core(t)
  {
    t := AiHitBase(s, items, c);
  }

  lemma {:induction false} AiGroupsCore(s: State, groups: seq<seq<Word>>) returns (t: State)
    requires WellFormed(s.categories) && Base(s) && Core(s)
    ensures t == AiGroups(s, groups) && t.categories == s.categories && t.pending == s.pending
    ensures Base(t) && Core(t)
    decreases |groups|
  {
    t := s;
    if groups != [] && s.status == Playing {
      FindMatchingMeans(s.categories, groups[0]);
      match EvaluateGuess(s.categories, groups[0])
      case Correct(c) =>
        var u := AiHitCore(s, groups[0], c);
        t := AiGroupsCore(u, groups[1..]);
      case Wrong(result) =>
        t := AiGroupsBase(s, groups);
    }
  }

  /** Confirming keeps the books exactly when the pending category is unsolved and the game not lost meanwhile. */
  lemma ConfirmExactly(s: State)
    requires WellFormed(s.categories) && Base(s) && s.pending.Some?
    requires Distinct(s.solved) && s.mistakes <= MAX_MISTAKES
    ensures Core(Confirm(s)) <==> s.pending.value !in s.solved && s.mistakes < MAX_MISTAKES
  {
    var t := Confirm(s);
    var u := ReduceBase(s, ConfirmSolve);
    if s.pending.value in s.solved {
      var i :| 0 <= i < |s.solved| && s.solved[i] == s.pending.value;
      assert t.solved[i] == t.solved[|s.solved|];
    } else {
      SolvedCount(t);
      NoneRemain(t);
    }
  }

  /** A right guess whose words are all still on the board is for an unsolved category, and the other way round. */
  lemma SubmittedIsUnsolved(s: State, c: Category)
    requires WellFormed(s.categories) && Base(s) && EvaluateGuess(s.categories, s.selected) == Correct(c)
    ensures c in s.categories && (Contains(s.remaining, s.selected) <==> c !in s.solved)
  {
    FindMatchingMeans(s.categories, s.selected);
    SelectedIsCategory(c, s.selected);
    forall w | w in s.selected ensures w in s.remaining <==> c !in s.solved {
      OnBoardMeans(s, c, w);
    }
    assert s.selected[0] in s.selected;
    forall i | 0 <= i < |s.selected| ensures s.selected[i] in s.remaining <==> c !in s.solved {
      assert s.selected[i] in s.selected;
    }
  }

  lemma SelectedIsCategory(c: Category, selected: seq<Word>)
    requires |c.words| == GROUP_SIZE && Distinct(c.words) && Matches(c, selected)
    ensures forall w :: w in selected <==> w in c.words
  {
    ElemsSize(c.words);
    ElemsSize(selected);
    assert Elems(c.words) <= Elems(selected);
    assert Elems(selected) == Elems(c.words) + (Elems(selected) - Elems(c.words));
    forall w ensures w in selected <==> w in c.words {
      assert w in selected <==> w in Elems(selected);
      assert w in c.words <==> w in Elems(c.words);
    }
  }

  /** Submitting keeps everything exactly when a right guess is still on the board. */
  lemma SubmitExactly(s: State)
    requires Good(s)
    ensures Good(Submit(s)) <==>
            (Takes(s) && EvaluateGuess(s.categories, s.selected).Correct? ==> Contains(s.remaining, s.selected))
  {
    if Takes(s) {
      var t := SubmitBase(s);
      match EvaluateGuess(s.categories, s.selected)
      case Correct(c) => SubmittedIsUnsolved(s, c);
      case Wrong(result) =>
    }
  }

  lemma ReduceGood(s: State, a: Action) returns (t: State)
    requires Good(s) && Legal(s, a)
    ensures t == Reduce(s, a) && Good(t)
  {
    t := ReduceBase(s, a);
    match a
    case SubmitGuess => SubmitExactly(s);
    case AiSolveSuccess(groups) =>
      var u := AiGroupsCore(s.(lastFailed := None, feedback := NoFeedback, shakeWords := []), groups);
    case ConfirmSolve => if s.pending.Some? { ConfirmExactly(s); }
    case Shuffle(words) => assert |multiset(words)| == |words| && |multiset(s.remaining)| == |s.remaining|;
    case _ =>
  }

  ghost predicate AllLegal(s: State, actions: seq<Action>)
    decreases |actions|
  {
    actions != [] ==> Legal(s, actions[0]) && AllLegal(Reduce(s, actions[0]), actions[1..])
  }

  lemma {:induction false} PlayGood(s: State, actions: seq<Action>) returns (t: State)
    requires Good(s) && AllLegal(s, actions)
    ensures t == Play(s, actions) && Good(t)
    decreases |actions|
  {
    t := s;
    if actions != [] {
      var u := ReduceGood(s, actions[0]);
      t := PlayGood(u, actions[1..]);
    }
  }

  /** The game a player starts, with the words in any order. */
  ghost predicate Starts(categories: seq<Category>, words: seq<Word>) {
    WellFormed(categories) && forall w :: w in words <==> InSome(categories, w)
  }

  lemma InitIsGood(categories: seq<Category>, words: seq<Word>)
    requires Starts(categories, words)
    ensures Good(Init(categories, words))
  {
    assert categories[0].words[0] in categories[0].words;
    assert InSome(categories, categories[0].words[0]);
  }

  /**
   Over every legal sequence of actions: no category is solved twice, the game is won
   exactly when no words remain, and lost exactly at four mistakes.
   */
  lemma GameIsSound(categories: seq<Category>, words: seq<Word>, actions: seq<Action>)
    requires Starts(categories, words) && AllLegal(Init(categories, words), actions)
    ensures Core(Play(Init(categories, words), actions))
  {
    InitIsGood(categories, words);
    var t := PlayGood(Init(categories, words), actions);
  }

  // ----- where the two conditions are needed -----

  /** A selection that the AI solves meanwhile can still be submitted: the category is then solved twice. */
  lemma SolvedTwice(s: State, c: Category)
    requires Good(s) && Takes(s) && EvaluateGuess(s.categories, s.selected) == Correct(c) && c in s.solved
    ensures var t := Play(s, [SubmitGuess, ConfirmSolve]);
            && t.solved == s.solved + [c] && !Core(t)
            && (|s.solved| + 1 == |s.categories| ==> t.status == Won && t.remaining != [])
  {
    var t := Play(s, [SubmitGuess, ConfirmSolve]);
    assert [SubmitGuess, ConfirmSolve][1..] == [ConfirmSolve];
    assert t == Confirm(Submit(s));
    var u := SubmitBase(s);
    ConfirmExactly(u);
    forall w ensures w in t.remaining <==> w in s.remaining {
      if w in c.words {
        OnBoardMeans(s, c, w);
      }
    }
    if s.remaining != [] {
      assert s.remaining[0] in t.remaining;
    }
  }

  /** The groups of categories k up to n. */
  function GroupsOf(categories: seq<Category>, k: nat, n: nat): seq<seq<Word>>
    requires k <= n <= |categories|
    decreases n - k
  {
    if k == n then [] else [categories[k].words] + GroupsOf(categories, k + 1, n)
  }

  /** Select some category's words one by one; let the AI solve all categories but the last; submit the selection. */
  function SolveThenSubmit(categories: seq<Category>, k: nat): seq<Action>
    requires k < |categories|
  {
    var batch := GroupsOf(categories, 0, |categories| - 1);
    Toggles(categories[k].words) + ([AiSolveSuccess(batch)] + [SubmitGuess, ConfirmSolve])
  }

  function Toggles(words: seq<Word>): seq<Action> {
    if words == [] then [] else [ToggleWord(words[0])] + Toggles(words[1..])
  }

  lemma {:induction false} PlayAppend(s: State, a: seq<Action>, b: seq<Action>)
    ensures Play(s, a + b) == Play(Play(s, a), b)
    decreases |a|
  {
    if a == [] {
      assert a + b == b;
    } else {
      assert (a + b)[1..] == a[1..] + b;
      PlayAppend(Reduce(s, a[0]), a[1..], b);
    }
  }

  lemma {:induction false} SelectRest(s: State, words: seq<Word>, k: nat)
    requires s.status == Playing && |words| == MAX_SELECTED && Distinct(words)
    requires k <= |words| && s.selected == words[..k]
    ensures Play(s, Toggles(words[k..])) == s.(selected := words)
    decreases |words| - k
  {
    if k == |words| {
      assert words[k..] == [] && words[..k] == words;
    } else {
      var rest, actions := words[k..], Toggles(words[k..]);
      assert rest[0] == words[k] && rest[1..] == words[k + 1..];
      assert actions[0] == ToggleWord(words[k]) && actions[1..] == Toggles(words[k + 1..]);
      assert words[..k] + [words[k]] == words[..k + 1];
      SelectRest(s.(selected := words[..k + 1]), words, k + 1);
    }
  }

  /** A category's own words are judged as that category. */
  lemma OwnMatch(categories: seq<Category>, k: nat)
    requires WellFormed(categories) && k < |categories|
    ensures FindMatching(categories, categories[k].words) == Some(categories[k])
  {
    FindMatchingMeans(categories, categories[k].words);
    assert Matches(categories[k], categories[k].words);
    var c := FindMatching(categories, categories[k].words).value;
    var i :| 0 <= i < |categories| && categories[i] == c;
    assert c.words[0] in categories[k].words && c.words[0] in categories[i].words;
  }

  /** From a first state, the AI has solved exactly the first k categories, and there are words left. */
  ghost predicate SolvedUpTo(start: State, s: State, k: nat) {
    && Base(s) && Core(s) && s.status == Playing && k < |start.categories| && s.solved == start.categories[..k]
    && s.categories == start.categories && s.pending == start.pending && s.selected == start.selected
  }

  lemma AiSolvesOne(start: State, s: State, k: nat) returns (t: State)
    requires WellFormed(start.categories) && SolvedUpTo(start, s, k) && k + 1 < |start.categories|
    ensures EvaluateGuess(s.categories, start.categories[k].words) == Correct(start.categories[k])
    ensures t == AiHit(s, start.categories[k].words, start.categories[k]) && SolvedUpTo(start, t, k + 1)
  {
    OwnMatch(s.categories, k);
    var c := s.categories[k];
    assert forall i :: 0 <= i < k ==> s.solved[i] == s.categories[i];
    t := AiHitCore(s, c.words, c);
    assert s.categories[..k] + [c] == s.categories[..k + 1];
    NoneRemain(t);
    assert s.categories[k + 1] in s.categories;
    assert s.categories[k + 1] !in t.solved;
  }

  lemma BatchNext(s: State, k: nat, n: nat)
    requires k < n <= |s.categories| && s.status == Playing
    requires EvaluateGuess(s.categories, s.categories[k].words) == Correct(s.categories[k])
    ensures AiGroups(s, GroupsOf(s.categories, k, n))
            == AiGroups(AiHit(s, s.categories[k].words, s.categories[k]), GroupsOf(s.categories, k + 1, n))
  {
    assert GroupsOf(s.categories, k, n)[1..] == GroupsOf(s.categories, k + 1, n);
  }

  lemma {:induction false} AiSolvesFrom(start: State, s: State, k: nat, n: nat) returns (t: State)
    requires WellFormed(start.categories) && SolvedUpTo(start, s, k) && k <= n == |start.categories| - 1
    ensures t == AiGroups(s, GroupsOf(start.categories, k, n)) && SolvedUpTo(start, t, n)
    decreases n - k
  {
    if k == n {
      t := s;
    } else {
      var u := AiSolvesOne(start, s, k);
      BatchNext(s, k, n);
      t := AiSolvesFrom(start, u, k + 1, n);
    }
  }

  /**
   So on any board of two categories or more a player can be told "won" with words still
   there: select any category but the last, let the AI solve all but the last, submit.
   */
  lemma FalseWin(categories: seq<Category>, words: seq<Word>, k: nat)
    requires Starts(categories, words) && k < |categories| - 1
    ensures var t := Play(Init(categories, words), SolveThenSubmit(categories, k));
            && t.solved == categories[..|categories| - 1] + [categories[k]]
            && t.status == Won && t.remaining != []
  {
    var s := Init(categories, words);
    InitIsGood(categories, words);
    PicksThenSolves(s, k);
    var t := AiSolvesAllButLast(s.(selected := categories[k].words));
    SolvedAgain(t, k);
  }

  /** Submitting a selection that is one of the solved categories, when only one is unsolved. */
  lemma SolvedAgain(t: State, k: nat)
    requires Good(t) && Takes(t) && k < |t.categories| - 1 && t.selected == t.categories[k].words
    requires t.solved == t.categories[..|t.categories| - 1]
    ensures var u := Play(t, [SubmitGuess, ConfirmSolve]);
            u.solved == t.solved + [t.categories[k]] && u.status == Won && u.remaining != []
  {
    OwnMatch(t.categories, k);
    assert t.solved[k] == t.categories[k];
    SolvedTwice(t, t.categories[k]);
  }

  lemma PicksThenSolves(s: State, k: nat)
    requires k < |s.categories| && s.status == Playing && s.selected == []
    requires |s.categories[k].words| == MAX_SELECTED && Distinct(s.categories[k].words)
    ensures var batch := AiSolveSuccess(GroupsOf(s.categories, 0, |s.categories| - 1));
            Play(s, SolveThenSubmit(s.categories, k))
            == Play(Play(s.(selected := s.categories[k].words), [batch]), [SubmitGuess, ConfirmSolve])
  {
    var words, batch := s.categories[k].words, AiSolveSuccess(GroupsOf(s.categories, 0, |s.categories| - 1));
    PlayAppend(s, Toggles(words), [batch] + [SubmitGuess, ConfirmSolve]);
    assert words[0..] == words && words[..0] == [];
    SelectRest(s, words, 0);
    PlayAppend(s.(selected := words), [batch], [SubmitGuess, ConfirmSolve]);
  }

  lemma AiSolvesAllButLast(s: State) returns (t: State)
    requires Good(s) && s.status == Playing && s.pending.None? && s.solved == [] && |s.selected| == MAX_SELECTED
    ensures var n := |s.categories| - 1;
            t == Play(s, [AiSolveSuccess(GroupsOf(s.categories, 0, n))]) && t.solved == s.categories[..n]
    ensures Good(t) && Takes(t) && t.categories == s.categories && t.selected == s.selected
  {
    var n := |s.categories| - 1;
    var batch := AiSolveSuccess(GroupsOf(s.categories, 0, n));
    var r := s.(lastFailed := None, feedback := NoFeedback, shakeWords := []);
    assert s.categories[..0] == [];
    var u := AiSolvesFrom(r, r, 0, n);
    assert [batch][1..] == [];
    t := Reduce(s, batch);
    assert t == u;
  }

  /** A pending solve confirmed after the AI has lost the game puts a lost game back in play. */
  lemma LostIsForgotten(s: State, items: seq<Word>)
    requires Good(s) && s.pending.Some? && s.mistakes == 3 && EvaluateGuess(s.categories, items).Wrong?
    ensures var t := Reduce(s, AiSolveSuccess([items]));
            && t.status == Lost && t.mistakes == MAX_MISTAKES
            && Reduce(t, ConfirmSolve).status != Lost && !Core(Reduce(t, ConfirmSolve))
  {
    var r := s.(lastFailed := None, feedback := NoFeedback, shakeWords := []);
    var t := AiGroupsBase(r, [items]);
    assert Reduce(s, AiSolveSuccess([items])).pending == s.pending;
  }
}
