/**
 Repeated guesses of an LLM run, over its whole life: which stored guesses are judged
 duplicates, and how repeating ends a run
 (evaluateProposals in backend/src/modules/strategy/llm-strategy-runner.service.ts).
 */
module LlmDuplicates {
  import opened Collections
  import opened Options
  import opened Puzzles
  import opened LlmLoop
  import opened LlmHistory
  import opened LlmStatus

  /** A guess that names no words but those of another of the same length. */
  ghost predicate Within(a: seq<Word>, b: seq<Word>) {
    |a| == |b| && Elems(a) <= Elems(b)
  }

  ghost predicate SeenBefore(guesses: seq<GuessRow>, words: seq<Word>) {
    exists i :: 0 <= i < |guesses| && Within(guesses[i].words, words)
  }

  /** What the source promises of a stored guess, given the guesses stored before it. */
  ghost predicate JudgedAfter(p: Puzzle, before: seq<GuessRow>, g: GuessRow) {
    && (g.result == Duplicate <==> SeenBefore(before, g.words))
    && (g.result != Duplicate ==> g.result == Evaluate(p, g.words))
  }

  ghost predicate AllJudged(p: Puzzle, guesses: seq<GuessRow>) {
    forall j :: 0 <= j < |guesses| ==> JudgedAfter(p, guesses[..j], guesses[j])
  }

  lemma JudgedAppend(p: Puzzle, guesses: seq<GuessRow>, g: GuessRow)
    requires AllJudged(p, guesses) && JudgedAfter(p, guesses, g)
    ensures AllJudged(p, guesses + [g])
  {
    var more := guesses + [g];
    forall j | 0 <= j < |more| ensures JudgedAfter(p, more[..j], more[j]) {
      if j < |guesses| {
        assert more[..j] == guesses[..j];
      } else {
        assert more[..j] == guesses;
      }
    }
  }

  /** The verdict against the prior guesses of a state that remembers some stored guesses. */
  lemma VerdictJudges(p: Puzzle, before: seq<GuessRow>, g: GuessRow)
    requires g.result == Verdict(p, Prior(before), g.words)
    ensures JudgedAfter(p, before, g)
  {
    var prior := Prior(before);
    forall i | 0 <= i < |before| ensures Covers(g.words, prior[i].words) <==> Within(before[i].words, g.words) {
      assert prior[i].words == before[i].words;
      assert forall w :: w in before[i].words <==> w in Elems(before[i].words);
      assert forall w :: w in g.words <==> w in Elems(g.words);
    }
    EvaluateFromMeans(p, NormSet(p, g.words), 0, false);
    if SeenBefore(before, g.words) {
      var i :| 0 <= i < |before| && Within(before[i].words, g.words);
      assert Covers(g.words, prior[i].words);
    }
  }

  lemma OneMore(before: seq<GuessRow>, g: GuessRow, rest: seq<GuessRow>)
    ensures before + [g] + rest == before + ([g] + rest)
  {
  }

  lemma JudgeOne(p: Puzzle, before: seq<GuessRow>, g: GuessRow)
    requires AllJudged(p, before) && g.result == Verdict(p, Prior(before), g.words)
    ensures AllJudged(p, before + [g]) && Prior(before + [g]) == Prior(before) + [PriorGuess(g.words, g.result)]
  {
    VerdictJudges(p, before, g);
    JudgedAppend(p, before, g);
  }

  /** Every guess of a batch is judged against all guesses before it, those of the batch included. */
  lemma {:induction false} SubmitJudges(p: Puzzle, lim: Limits, s: Loop, before: seq<GuessRow>,
                                        proposals: seq<seq<Word>>)
    requires AllJudged(p, before) && s.priorGuesses == Prior(before)
    ensures AllJudged(p, before + Used(Submit(p, lim, s, proposals).rows))
    decreases |proposals|
  {
    var b := Submit(p, lim, s, proposals);
    if proposals == [] {
      assert before + [] == before;
    } else {
      match Canonical(p, s.availableWords, proposals[0])
      case None =>
        SubmitJudges(p, lim, s, before, proposals[1..]);
        assert b.rows[1..] == Submit(p, lim, s, proposals[1..]).rows;
        assert Used(b.rows) == Used(b.rows[1..]);
      case Some(guess) =>
        var r := Verdict(p, s.priorGuesses, guess);
        var t := AfterSubmit(lim, s, guess, r);
        var g := GuessRow(guess, r, t.guessCount);
        JudgeOne(p, before, g);
        if r != Success || t.status == Completed {
          UsedUnused(proposals[1..]);
          assert b.rows[1..] == Unused(proposals[1..]);
          assert Used(b.rows) == [g];
        } else {
          SubmitJudges(p, lim, t, before + [g], proposals[1..]);
          assert b.rows[1..] == Submit(p, lim, t, proposals[1..]).rows;
          OneMore(before, g, Used(b.rows[1..]));
        }
    }
  }

  lemma CallJudges(p: Puzzle, lim: Limits, build: Prompts, words: seq<Word>, w: World, o: Outcome, captured: bool)
    requires Consistent(words, w) && w.live.Some? && AllJudged(p, w.rows.guesses)
    ensures AllJudged(p, React(p, lim, build, w, Call(o, captured)).rows.guesses)
  {
    var s, before := w.live.value.loop, w.rows.guesses;
    CountsAgree(before);
    assert s.priorGuesses == Prior(before);
    assert before + [] == before;
    if o.Reply? && o.groupsFound {
      var s1 := s.(consecutiveModelErrors := 0, rateLimitStreak := 0, rateLimitStreakStartedAt := None);
      SubmitJudges(p, lim, s1, before, Entries(o.proposalWords));
    }
  }

  lemma ReactJudges(p: Puzzle, lim: Limits, build: Prompts, words: seq<Word>, w: World, e: Event)
    requires Consistent(words, w) && AllJudged(p, w.rows.guesses)
    ensures AllJudged(p, React(p, lim, build, w, e).rows.guesses)
  {
    if e.Call? && w.live.Some? {
      CallJudges(p, lim, build, words, w, e.o, e.captured);
    }
  }

  lemma {:induction false} HistoryJudges(p: Puzzle, lim: Limits, build: Prompts, words: seq<Word>, w: World,
                                         events: seq<Event>)
    requires Consistent(words, w) && AllJudged(p, w.rows.guesses)
    ensures AllJudged(p, History(p, lim, build, w, events).rows.guesses)
    decreases |events|
  {
    if events != [] {
      ReactConsistent(p, lim, build, words, w, events[0]);
      ReactJudges(p, lim, build, words, w, events[0]);
      HistoryJudges(p, lim, build, words, React(p, lim, build, w, events[0]), events[1..]);
    }
  }

  /**
   Over every history: a stored guess is DUPLICATE exactly when some guess stored before it
   is as long and names no other words, and any other guess has the puzzle's own verdict.
   */
  lemma DuplicatesExactly(p: Puzzle, lim: Limits, build: Prompts, words: seq<Word>, events: seq<Event>, j: nat)
    requires j < |History(p, lim, build, NewRun(words), events).rows.guesses|
    ensures var guesses := History(p, lim, build, NewRun(words), events).rows.guesses;
            && (guesses[j].result == Duplicate
                <==> exists i :: 0 <= i < j && Within(guesses[i].words, guesses[j].words))
            && (guesses[j].result != Duplicate ==> guesses[j].result == Evaluate(p, guesses[j].words))
  {
    HistoryJudges(p, lim, build, words, NewRun(words), events);
    var guesses := History(p, lim, build, NewRun(words), events).rows.guesses;
    assert JudgedAfter(p, guesses[..j], guesses[j]);
    assert forall i :: 0 <= i < j ==> guesses[..j][i] == guesses[i];
  }

  /** Among guesses of different words, that is naming the same group again. */
  lemma SameGroupExactly(p: Puzzle, lim: Limits, build: Prompts, words: seq<Word>, events: seq<Event>, j: nat)
    requires j < |History(p, lim, build, NewRun(words), events).rows.guesses|
    requires forall i :: 0 <= i <= j ==>
               var g := History(p, lim, build, NewRun(words), events).rows.guesses[i];
               |g.words| == GROUP_SIZE && Distinct(g.words)
    ensures var guesses := History(p, lim, build, NewRun(words), events).rows.guesses;
            guesses[j].result == Duplicate
            <==> exists i :: 0 <= i < j && Elems(guesses[i].words) == Elems(guesses[j].words)
  {
    DuplicatesExactly(p, lim, build, words, events, j);
    var guesses := History(p, lim, build, NewRun(words), events).rows.guesses;
    forall i | 0 <= i < j
      ensures Within(guesses[i].words, guesses[j].words) <==> Elems(guesses[i].words) == Elems(guesses[j].words)
    {
      ElemsSize(guesses[i].words);
      ElemsSize(guesses[j].words);
      if Within(guesses[i].words, guesses[j].words) {
        SubsetOfSameSize(Elems(guesses[i].words), Elems(guesses[j].words));
      }
    }
  }

  /** So no group is ever judged twice: of two guesses of the same words the later one is a duplicate. */
  lemma NoGroupJudgedTwice(p: Puzzle, lim: Limits, build: Prompts, words: seq<Word>, events: seq<Event>, i: nat, j: nat)
    requires var guesses := History(p, lim, build, NewRun(words), events).rows.guesses;
             i < j < |guesses| && |guesses[i].words| == |guesses[j].words|
             && Elems(guesses[i].words) == Elems(guesses[j].words)
    ensures History(p, lim, build, NewRun(words), events).rows.guesses[j].result == Duplicate
  {
    DuplicatesExactly(p, lim, build, words, events, j);
    assert Within(History(p, lim, build, NewRun(words), events).rows.guesses[i].words,
                  History(p, lim, build, NewRun(words), events).rows.guesses[j].words);
  }

  // ----- repeating ends the run -----

  /** A reply whose first proposal is on the board and was guessed before. */
  ghost predicate RepeatsFirst(w: World, o: Outcome) {
    && o.Reply? && o.groupsFound && Entries(o.proposalWords) != []
    && (forall x :: x in Entries(o.proposalWords)[0] ==> x in w.rows.availableWords)
    && SeenBefore(w.rows.guesses, Entries(o.proposalWords)[0])
  }

  function Failures(guesses: seq<GuessRow>): nat {
    |guesses| - CountResult(guesses, Success)
  }

  /** What every call keeps. */
  lemma CallKeeps(p: Puzzle, lim: Limits, build: Prompts, words: seq<Word>, w: World, o: Outcome, captured: bool)
    requires Consistent(words, w) && StatusOk(w) && AllJudged(p, w.rows.guesses) && w.live.Some?
    ensures var t := React(p, lim, build, w, Call(o, captured));
            Consistent(words, t) && StatusOk(t) && AllJudged(p, t.rows.guesses)
  {
    ReactConsistent(p, lim, build, words, w, Call(o, captured));
    CallStatusOk(p, lim, build, words, w, o, captured);
    CallJudges(p, lim, build, words, w, o, captured);
  }

  lemma OneMoreCounts(guesses: seq<GuessRow>, g: GuessRow)
    requires g.result == Duplicate
    ensures Failures(guesses + [g]) == Failures(guesses) + 1
    ensures CountResult(guesses + [g], Duplicate) == CountResult(guesses, Duplicate) + 1
  {
    assert (guesses + [g])[..|guesses|] == guesses;
  }

  /** The status after one more duplicate. */
  function StatusWith(lim: Limits, guesses: seq<GuessRow>, duplicateErrors: nat): RunStatus {
    if Failures(guesses) >= lim.maxFailedGuesses then Failed
    else if CountResult(guesses, Duplicate) + duplicateErrors >= lim.maxDuplicates then DuplicateStop
    else Running
  }

  /** What such a reply leaves stored. */
  ghost predicate OneRepeat(lim: Limits, w: World, t: World, words: seq<Word>) {
    && w.live.Some?
    && t.rows.guesses == w.rows.guesses + [GuessRow(words, Duplicate, |w.rows.guesses| + 1)]
    && t.rows.availableWords == w.rows.availableWords
    && Failures(t.rows.guesses) == Failures(w.rows.guesses) + 1
    && CountResult(t.rows.guesses, Duplicate) == CountResult(w.rows.guesses, Duplicate) + 1
    && t.rows.status == StatusWith(lim, t.rows.guesses, w.live.value.duplicateErrors)
    && (t.live.Some? <==> t.rows.status == Running)
    && (t.live.Some? ==> t.live.value.duplicateErrors == w.live.value.duplicateErrors)
  }

  /** What a call stores, by its batch. */
  lemma CallStores(p: Puzzle, lim: Limits, build: Prompts, w: World, o: Outcome, captured: bool)
    requires w.live.Some?
    ensures var b, t := Iterate(p, lim, w.live.value.loop, o), React(p, lim, build, w, Call(o, captured));
            && t.rows.guesses == w.rows.guesses + Used(b.rows) && t.rows.availableWords == b.loop.availableWords
            && (t.live.Some? ==> t.live.value.duplicateErrors == w.live.value.duplicateErrors + DuplicateErrors(o))
  {
  }

  lemma RepeatStatus(lim: Limits, live: Live, o: Outcome, before: seq<GuessRow>, g: GuessRow, board: seq<Word>)
    requires o.Reply? && g.result == Duplicate && board != []
    ensures EndStatus(lim, live, o, |before|, before + [g], board)
            == StatusWith(lim, before + [g], live.duplicateErrors)
  {
  }

  lemma RepeatRows(p: Puzzle, lim: Limits, build: Prompts, words: seq<Word>, w: World, o: Outcome, captured: bool)
    returns (t: World)
    requires Consistent(words, w) && StatusOk(w) && w.live.Some? && RepeatsFirst(w, o)
    ensures t == React(p, lim, build, w, Call(o, captured))
    ensures OneRepeat(lim, w, t, Entries(o.proposalWords)[0])
  {
    var g := GuessRow(Entries(o.proposalWords)[0], Duplicate, |w.rows.guesses| + 1);
    RepeatGuess(p, lim, words, w, o);
    CallStores(p, lim, build, w, o, captured);
    CallEnds(p, lim, build, words, w, o, captured);
    RepeatStatus(lim, w.live.value, o, w.rows.guesses, g, w.rows.availableWords);
    OneMoreCounts(w.rows.guesses, g);
    t := React(p, lim, build, w, Call(o, captured));
  }

  /** Such a reply adds one duplicate, and takes nothing off the board. */
  lemma RepeatStep(p: Puzzle, lim: Limits, build: Prompts, words: seq<Word>, w: World, o: Outcome, captured: bool)
    returns (t: World)
    requires Consistent(words, w) && StatusOk(w) && AllJudged(p, w.rows.guesses) && w.live.Some? && RepeatsFirst(w, o)
    ensures t == React(p, lim, build, w, Call(o, captured))
    ensures Consistent(words, t) && StatusOk(t) && AllJudged(p, t.rows.guesses)
    ensures OneRepeat(lim, w, t, Entries(o.proposalWords)[0])
  {
    CallKeeps(p, lim, build, words, w, o, captured);
    t := RepeatRows(p, lim, build, words, w, o, captured);
  }

  lemma RepeatGuess(p: Puzzle, lim: Limits, words: seq<Word>, w: World, o: Outcome)
    requires Consistent(words, w) && w.live.Some? && RepeatsFirst(w, o)
    ensures Used(Iterate(p, lim, w.live.value.loop, o).rows)
            == [GuessRow(Entries(o.proposalWords)[0], Duplicate, |w.rows.guesses| + 1)]
    ensures Iterate(p, lim, w.live.value.loop, o).loop.availableWords == w.rows.availableWords
  {
    var s, before, proposals := w.live.value.loop, w.rows.guesses, Entries(o.proposalWords);
    CountsAgree(before);
    var s1 := s.(consecutiveModelErrors := 0, rateLimitStreak := 0, rateLimitStreakStartedAt := None);
    var g := GuessRow(proposals[0], Verdict(p, s1.priorGuesses, proposals[0]), |before| + 1);
    VerdictJudges(p, before, g);
    var b := Submit(p, lim, s1, proposals);
    UsedUnused(proposals[1..]);
    assert b.rows[1..] == Unused(proposals[1..]);
    assert Used(b.rows) == [g] + Used(b.rows[1..]);
  }

  function Times(e: Event, n: nat): seq<Event> {
    if n == 0 then [] else [e] + Times(e, n - 1)
  }

  /** How many more duplicates the run bears, with failures staying below their own limit. */
  ghost predicate Bears(lim: Limits, w: World, n: nat) {
    && w.live.Some?
    && CountResult(w.rows.guesses, Duplicate) + w.live.value.duplicateErrors + n == lim.maxDuplicates
    && Failures(w.rows.guesses) + n < lim.maxFailedGuesses
  }

  /**
   Repeating ends the run: as long as failures stay below their own limit, a worker that
   gets the same kind of reply over and over is stopped for duplicates after exactly as
   many as are missing to the limit, each stored as a duplicate.
   */
  lemma {:induction false} RepeatsStopTheRun(p: Puzzle, lim: Limits, build: Prompts, words: seq<Word>, w: World,
                                             o: Outcome, captured: bool, n: nat)
    returns (t: World)
    requires Consistent(words, w) && StatusOk(w) && AllJudged(p, w.rows.guesses)
    requires 0 < n && Bears(lim, w, n) && RepeatsFirst(w, o)
    ensures t == History(p, lim, build, w, Times(Call(o, captured), n))
    ensures t.rows.status == DuplicateStop && t.live.None? && |t.rows.guesses| == |w.rows.guesses| + n
    decreases n
  {
    t := RepeatStep(p, lim, build, words, w, o, captured);
    OneFirst(p, lim, build, w, Call(o, captured), n);
    if n > 1 {
      StillRepeats(w, t, o);
      t := RepeatsStopTheRun(p, lim, build, words, t, o, captured, n - 1);
    }
  }

  /** And not before. */
  lemma {:induction false} RepeatsGoOn(p: Puzzle, lim: Limits, build: Prompts, words: seq<Word>, w: World, o: Outcome,
                                       captured: bool, n: nat, k: nat)
    requires Consistent(words, w) && StatusOk(w) && AllJudged(p, w.rows.guesses)
    requires 0 < k < n && Bears(lim, w, n) && RepeatsFirst(w, o)
    ensures History(p, lim, build, w, Times(Call(o, captured), k)).rows.status == Running
    decreases k
  {
    var t := RepeatStep(p, lim, build, words, w, o, captured);
    OneFirst(p, lim, build, w, Call(o, captured), k);
    if k > 1 {
      StillRepeats(w, t, o);
      RepeatsGoOn(p, lim, build, words, t, o, captured, n - 1, k - 1);
    }
  }

  lemma OneFirst(p: Puzzle, lim: Limits, build: Prompts, w: World, e: Event, k: nat)
    requires k > 0
    ensures History(p, lim, build, w, Times(e, k))
            == History(p, lim, build, React(p, lim, build, w, e), Times(e, k - 1))
  {
    assert Times(e, k)[1..] == Times(e, k - 1);
  }

  lemma StillRepeats(w: World, t: World, o: Outcome)
    requires RepeatsFirst(w, o) && w.rows.guesses <= t.rows.guesses && t.rows.availableWords == w.rows.availableWords
    ensures RepeatsFirst(t, o)
  {
    var i :| 0 <= i < |w.rows.guesses| && Within(w.rows.guesses[i].words, Entries(o.proposalWords)[0]);
    assert t.rows.guesses[i] == w.rows.guesses[i];
  }

  // ----- a group never guessed, judged a duplicate -----

  /** One reply with one proposal. */
  function Proposing(words: seq<Word>): Event {
    Call(Reply("", true, [Some(words)], false, "", None), false)
  }

  /**
   "The same words" is not what the test says: after a guess that names a word twice, a
   group that was never guessed counts as its repetition.
   */
  lemma TwiceNamedWordBlocks(p: Puzzle, lim: Limits, build: Prompts, words: seq<Word>, a: Word, b: Word, c: Word,
                             d: Word)
    requires p.WellFormed() && WholeGroups(p, words) && Distinct([a, b, c, d])
    requires a in words && b in words && c in words && d in words && lim.maxFailedGuesses > 1
    ensures var w := History(p, lim, build, NewRun(words), [Start, Proposing([a, a, b, c]), Proposing([a, b, c, d])]);
            |w.rows.guesses| == 2 && w.rows.guesses[1].words == [a, b, c, d] && w.rows.guesses[1].result == Duplicate
            && Elems(w.rows.guesses[0].words) != Elems(w.rows.guesses[1].words)
  {
    var w0 := React(p, lim, build, NewRun(words), Start);
    var narrow, wide := [a, a, b, c], [a, b, c, d];
    NarrowMisses(p, a, b, c);
    var w1 := FirstGuess(p, lim, build, words, w0, narrow);
    NarrowIsWithin(a, b, c, d);
    OneEntry(wide);
    assert Within(w1.rows.guesses[0].words, wide);
    var w2 := RepeatStep(p, lim, build, words, w1, Proposing(wide).o, false);
    ThreeEvents(p, lim, build, NewRun(words), Start, Proposing(narrow), Proposing(wide));
  }

  lemma NarrowIsWithin(a: Word, b: Word, c: Word, d: Word)
    requires Distinct([a, b, c, d])
    ensures Within([a, a, b, c], [a, b, c, d]) && Elems([a, a, b, c]) != Elems([a, b, c, d])
  {
    assert [a, b, c, d][0] == a && [a, b, c, d][1] == b && [a, b, c, d][2] == c && [a, b, c, d][3] == d;
    assert d in Elems([a, b, c, d]) && d !in Elems([a, a, b, c]);
  }

  lemma OneEntry(words: seq<Word>)
    requires |words| == GROUP_SIZE
    ensures Entries([Some(words)]) == [words]
  {
    assert [Some(words)][1..] == [];
  }

  lemma ThreeEvents(p: Puzzle, lim: Limits, build: Prompts, w: World, d: Event, e: Event, f: Event)
    ensures History(p, lim, build, w, [d, e, f])
            == React(p, lim, build, React(p, lim, build, React(p, lim, build, w, d), e), f)
  {
    HistoryAppend(p, lim, build, w, [d], [e, f]);
    HistoryAppend(p, lim, build, React(p, lim, build, w, d), [e], [f]);
    assert [d] + [e, f] == [d, e, f] && [e] + [f] == [e, f];
    OneEvent(p, lim, build, w, d);
    OneEvent(p, lim, build, React(p, lim, build, w, d), e);
    OneEvent(p, lim, build, React(p, lim, build, React(p, lim, build, w, d), e), f);
  }

  lemma OneEvent(p: Puzzle, lim: Limits, build: Prompts, w: World, e: Event)
    ensures History(p, lim, build, w, [e]) == React(p, lim, build, w, e)
  {
  }

  /** Three different words are no group. */
  lemma NarrowMisses(p: Puzzle, a: Word, b: Word, c: Word)
    requires p.WellFormed() && p.OnBoard(a) && p.OnBoard(b) && p.OnBoard(c)
    ensures Evaluate(p, [a, a, b, c]) != Success
  {
    var words := [a, a, b, c];
    assert Elems(words) == {a, b, c};
    if Evaluate(p, words) == Success {
      var i := SuccessIsWholeGroup(p, words);
      ElemsSize(p.groups[i]);
    }
  }

  lemma FirstStatus(lim: Limits, live: Live, o: Outcome, g: GuessRow, board: seq<Word>)
    requires o.Reply? && g.result != Success && g.result != Duplicate && board != [] && lim.maxFailedGuesses > 1
    ensures EndStatus(lim, live, o, 0, [g], board) == Running
  {
    assert [g][..0] == [];
    assert CountResult([g], Success) == 0;
  }

  lemma FirstGuess(p: Puzzle, lim: Limits, build: Prompts, words: seq<Word>, w: World, guess: seq<Word>)
    returns (t: World)
    requires w == React(p, lim, build, NewRun(words), Start) && words != []
    requires |guess| == GROUP_SIZE && (forall x :: x in guess ==> x in words)
    requires Evaluate(p, guess) != Success && lim.maxFailedGuesses > 1
    ensures t == React(p, lim, build, w, Proposing(guess))
    ensures Consistent(words, t) && StatusOk(t) && AllJudged(p, t.rows.guesses) && t.live.Some?
    ensures |t.rows.guesses| == 1 && t.rows.guesses[0].words == guess && t.rows.availableWords == words
  {
    var o := Proposing(guess).o;
    ReactConsistent(p, lim, build, words, NewRun(words), Start);
    CallKeeps(p, lim, build, words, w, o, false);
    CallEnds(p, lim, build, words, w, o, false);
    CallStores(p, lim, build, w, o, false);
    var b := FirstBatch(p, lim, words, w.live.value.loop, guess);
    EvaluateFromMeans(p, NormSet(p, guess), 0, false);
    FirstStatus(lim, w.live.value, o, Used(b.rows)[0], words);
    t := React(p, lim, build, w, Proposing(guess));
    assert t.rows.guesses == [Used(b.rows)[0]];
  }

  lemma FirstBatch(p: Puzzle, lim: Limits, words: seq<Word>, s: Loop, guess: seq<Word>) returns (b: Batch)
    requires s == LoopFrom(words, NOTHING) && |guess| == GROUP_SIZE && (forall x :: x in guess ==> x in words)
    requires Evaluate(p, guess) != Success
    ensures b == Iterate(p, lim, s, Proposing(guess).o) && b.loop.availableWords == words
    ensures |Used(b.rows)| == 1 && Used(b.rows)[0].words == guess && Used(b.rows)[0].result == Evaluate(p, guess)
  {
    OneEntry(guess);
    b := Iterate(p, lim, s, Proposing(guess).o);
    var g := GuessRow(guess, Verdict(p, [], guess), 1);
    assert b.rows[1..] == Unused([guess][1..]) == [];
    assert Used(b.rows) == [g] + Used(b.rows[1..]);
    EvaluateFromMeans(p, NormSet(p, guess), 0, false);
  }
}
