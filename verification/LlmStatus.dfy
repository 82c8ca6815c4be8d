/**
 The stored status of an LLM run over its whole life: what every call leaves, when a run
 is over, and what pauses leave to be resumed
 (runLlmStrategy in backend/src/modules/strategy/llm-strategy-runner.service.ts, flushBatch
 in backend/src/modules/strategy/strategy-run-store.service.ts).
 */
module LlmStatus {
  import opened Options
  import opened Puzzles
  import opened LlmLoop
  import opened LlmHistory

  /** Neither running nor parked. */
  predicate Terminal(status: RunStatus) {
    status != Running && status != RateLimitedDaily
  }

  // ----- where a batch leaves the run -----

  function LastOf(guesses: seq<GuessRow>): GuessRow
    requires guesses != []
  {
    guesses[|guesses| - 1]
  }

  /** The status a batch ends in, told by its last guess, the words left and the counts. */
  ghost predicate EndsAs(lim: Limits, s: Loop, used: seq<GuessRow>, t: Loop) {
    if used == [] then t == s
    else if t.availableWords == [] then t.status == Completed && LastOf(used).result == Success
    else if LastOf(used).result == Success then t.status == Running
    else if t.failedGuessCount >= lim.maxFailedGuesses then t.status == Failed
    else if LastOf(used).result == Duplicate && t.duplicateCount >= lim.maxDuplicates then t.status == DuplicateStop
    else t.status == Running
  }

  lemma {:induction false} SubmitEnds(p: Puzzle, lim: Limits, s: Loop, proposals: seq<seq<Word>>)
    requires s.status == Running && s.availableWords != []
    ensures EndsAs(lim, s, Used(Submit(p, lim, s, proposals).rows), Submit(p, lim, s, proposals).loop)
    decreases |proposals|
  {
    if proposals != [] {
      var b := Submit(p, lim, s, proposals);
      match Canonical(p, s.availableWords, proposals[0])
      case None =>
        SubmitEnds(p, lim, s, proposals[1..]);
        assert b.rows[1..] == Submit(p, lim, s, proposals[1..]).rows;
        assert Used(b.rows) == Used(b.rows[1..]);
      case Some(guess) =>
        var r := Verdict(p, s.priorGuesses, guess);
        var t := AfterSubmit(lim, s, guess, r);
        if r != Success || t.status == Completed {
          UsedUnused(proposals[1..]);
          assert b.rows[1..] == Unused(proposals[1..]);
        } else {
          SubmitEnds(p, lim, t, proposals[1..]);
          assert b.rows[1..] == Submit(p, lim, t, proposals[1..]).rows;
        }
    }
  }

  function MalformedStatus(lim: Limits, s: Loop): RunStatus {
    if s.malformedCount + 1 >= lim.maxMalformed then MalformedResponse else Running
  }

  /** The status a call ends in, from the guesses and the words stored after it. */
  function EndStatus(lim: Limits, live: Live, o: Outcome, before: nat, guesses: seq<GuessRow>, board: seq<Word>)
    : RunStatus
    requires before <= |guesses|
  {
    match o
    case CallError(code, now) => (
      match EffectiveCode(lim, live.loop, code, now)
      case RateLimitedDailyCode => RateLimitedDaily
      case RateLimited => Running
      case ModelError => if live.loop.consecutiveModelErrors + 1 >= lim.maxModelErrors then Error else Running
      case DuplicateGroup => if live.loop.duplicateCount + 1 >= lim.maxDuplicates then DuplicateStop else Running
      case InvalidGroup => MalformedStatus(lim, live.loop))
    case Reply(_, _, _, _, _, _) =>
      if |guesses| == before then MalformedStatus(lim, live.loop)
      else if board == [] then Completed
      else if LastOf(guesses).result == Success then Running
      else if |guesses| - CountResult(guesses, Success) >= lim.maxFailedGuesses then Failed
      else if LastOf(guesses).result == Duplicate
              && CountResult(guesses, Duplicate) + live.duplicateErrors >= lim.maxDuplicates then DuplicateStop
      else Running
  }

  lemma IterateEnds(p: Puzzle, lim: Limits, s: Loop, o: Outcome)
    requires s.status == Running && s.availableWords != []
    ensures var b := Iterate(p, lim, s, o);
            && (b.loop.status == Completed <==> b.loop.availableWords == [])
            && (o.Reply? && Used(b.rows) != [] ==>
                  EndsAs(lim, s, Used(b.rows), b.loop))
            && (o.Reply? && Used(b.rows) == [] ==> b.loop.status == MalformedStatus(lim, s))
  {
    if o.Reply? && o.groupsFound {
      var s1 := s.(consecutiveModelErrors := 0, rateLimitStreak := 0, rateLimitStreakStartedAt := None);
      SubmitEnds(p, lim, s1, Entries(o.proposalWords));
      SubmitIsRecall(p, lim, s1, Entries(o.proposalWords));
      var b := Submit(p, lim, s1, Entries(o.proposalWords));
      RecallCounts(MemoryOf(s1), Used(b.rows));
    }
  }

  // ----- every history -----

  /** Completed exactly when no words are left; a worker only on a run that is neither over nor solved. */
  ghost predicate StatusOk(w: World) {
    && (w.rows.status == Completed <==> w.rows.availableWords == [])
    && (w.live.Some? ==> !Terminal(w.rows.status))
  }

  lemma CallStatusOk(p: Puzzle, lim: Limits, build: Prompts, words: seq<Word>, w: World, o: Outcome, captured: bool)
    requires Consistent(words, w) && StatusOk(w) && w.live.Some?
    ensures StatusOk(React(p, lim, build, w, Call(o, captured)))
  {
    IterateEnds(p, lim, w.live.value.loop, o);
  }

  lemma ReactStatusOk(p: Puzzle, lim: Limits, build: Prompts, words: seq<Word>, w: World, e: Event)
    requires Consistent(words, w) && StatusOk(w)
    ensures StatusOk(React(p, lim, build, w, e))
  {
    if e.Call? && w.live.Some? {
      CallStatusOk(p, lim, build, words, w, e.o, e.captured);
    }
  }

  lemma {:induction false} HistoryStatusOk(p: Puzzle, lim: Limits, build: Prompts, words: seq<Word>, w: World,
                                           events: seq<Event>)
    requires Consistent(words, w) && StatusOk(w)
    ensures StatusOk(History(p, lim, build, w, events))
    decreases |events|
  {
    if events != [] {
      ReactConsistent(p, lim, build, words, w, events[0]);
      ReactStatusOk(p, lim, build, words, w, events[0]);
      HistoryStatusOk(p, lim, build, words, React(p, lim, build, w, events[0]), events[1..]);
    }
  }

  /** Over every history, the stored status is COMPLETED exactly when the stored board is empty. */
  lemma CompletedExactly(p: Puzzle, lim: Limits, build: Prompts, words: seq<Word>, events: seq<Event>)
    requires words != []
    ensures var w := History(p, lim, build, NewRun(words), events);
            && (w.rows.status == Completed <==> w.rows.availableWords == [])
            && (w.live.Some? ==> !Terminal(w.rows.status))
  {
    HistoryStatusOk(p, lim, build, words, NewRun(words), events);
  }

  /**
   After any call in any history, the stored status is the one its outcome, the stored
   guesses and the stored board call for; and the worker goes on exactly when that is RUNNING.
   */
  lemma StatusAfterCall(p: Puzzle, lim: Limits, build: Prompts, words: seq<Word>, events: seq<Event>, o: Outcome,
                        captured: bool)
    requires words != [] && History(p, lim, build, NewRun(words), events).live.Some?
    ensures var w := History(p, lim, build, NewRun(words), events);
            var t := React(p, lim, build, w, Call(o, captured));
            && w.rows.guesses <= t.rows.guesses
            && t.rows.status
               == EndStatus(lim, w.live.value, o, |w.rows.guesses|, t.rows.guesses, t.rows.availableWords)
            && (t.rows.status == Running <==> t.live.Some?)
  {
    var w := History(p, lim, build, NewRun(words), events);
    HistoryConsistent(p, lim, build, words, NewRun(words), events);
    HistoryStatusOk(p, lim, build, words, NewRun(words), events);
    CallEnds(p, lim, build, words, w, o, captured);
  }

  lemma CallEnds(p: Puzzle, lim: Limits, build: Prompts, words: seq<Word>, w: World, o: Outcome, captured: bool)
    requires Consistent(words, w) && StatusOk(w) && w.live.Some?
    ensures var t := React(p, lim, build, w, Call(o, captured));
            && w.rows.guesses <= t.rows.guesses
            && t.rows.status
               == EndStatus(lim, w.live.value, o, |w.rows.guesses|, t.rows.guesses, t.rows.availableWords)
            && (t.rows.status == Running <==> t.live.Some?)
  {
    var live := w.live.value;
    var b := Iterate(p, lim, live.loop, o);
    var t := React(p, lim, build, w, Call(o, captured));
    IterateEnds(p, lim, live.loop, o);
    CallKeepsLive(p, lim, build, words, w.rows, live, o);
    var guesses := w.rows.guesses + Used(b.rows);
    assert t.rows.guesses == guesses;
    CountsAgree(guesses);
    if o.Reply? && Used(b.rows) != [] {
      assert LastOf(guesses) == LastOf(Used(b.rows));
    } else if o.CallError? {
      ParksExactly(lim, live.loop, o.code, o.now);
    }
  }

  /**
   Once a run is over - completed, failed, stopped for duplicates or malformed replies, or
   ended by errors and not retried by hand - no event changes its rows or revives it.
   */
  lemma {:induction false} TerminalStays(p: Puzzle, lim: Limits, build: Prompts, w: World, events: seq<Event>)
    requires StatusOk(w) && Terminal(w.rows.status)
    requires w.rows.status == Error ==> forall i :: 0 <= i < |events| ==> !events[i].ManualRetry?
    ensures History(p, lim, build, w, events) == w && w.live.None?
    decreases |events|
  {
    if events != [] {
      assert React(p, lim, build, w, events[0]) == w;
      TerminalStays(p, lim, build, w, events[1..]);
    }
  }

  /** Whatever happened before, a run that is over stays as it is. */
  lemma OverIsOver(p: Puzzle, lim: Limits, build: Prompts, words: seq<Word>, events: seq<Event>, more: seq<Event>)
    requires words != [] && Terminal(History(p, lim, build, NewRun(words), events).rows.status)
    requires History(p, lim, build, NewRun(words), events).rows.status == Error ==>
               forall i :: 0 <= i < |more| ==> !more[i].ManualRetry?
    ensures History(p, lim, build, NewRun(words), events + more) == History(p, lim, build, NewRun(words), events)
  {
    HistoryStatusOk(p, lim, build, words, NewRun(words), events);
    HistoryAppend(p, lim, build, NewRun(words), events, more);
    TerminalStays(p, lim, build, History(p, lim, build, NewRun(words), events), more);
  }

  lemma {:induction false} HistoryAppend(p: Puzzle, lim: Limits, build: Prompts, w: World, a: seq<Event>, b: seq<Event>)
    ensures History(p, lim, build, w, a + b) == History(p, lim, build, History(p, lim, build, w, a), b)
    decreases |a|
  {
    if a == [] {
      assert a + b == b;
    } else {
      assert (a + b)[1..] == a[1..] + b;
      HistoryAppend(p, lim, build, React(p, lim, build, w, a[0]), a[1..], b);
    }
  }

  /**
   A pause keeps everything but the status, and a sweep and a start later a worker holds
   what the stored rows say: for want of budget in the middle of a run, or at the gate.
   */
  lemma PausesResume(p: Puzzle, lim: Limits, build: Prompts, words: seq<Word>, events: seq<Event>, pause: Event)
    requires var w := History(p, lim, build, NewRun(words), events);
             (pause == BudgetPause && w.live.Some?) || (pause == GatePause && w.live.None? && w.rows.status == Running)
    ensures var w := History(p, lim, build, NewRun(words), events);
            var paused := History(p, lim, build, NewRun(words), events + [pause]);
            var resumed := History(p, lim, build, NewRun(words), events + [pause, SweepResume, Start]);
            && paused == World(w.rows.(status := RateLimitedDaily), None)
            && resumed.rows == w.rows.(status := Running) && resumed.live == Some(Rebuild(resumed.rows))
            && resumed.live.value.loop.availableWords == w.rows.availableWords
            && MemoryOf(resumed.live.value.loop) == Recall(NOTHING, w.rows.guesses)
  {
    var w := History(p, lim, build, NewRun(words), events);
    HistoryAppend(p, lim, build, NewRun(words), events, [pause]);
    HistoryAppend(p, lim, build, NewRun(words), events, [pause, SweepResume, Start]);
    var paused := React(p, lim, build, w, pause);
    assert [pause][1..] == [] && [pause, SweepResume, Start][1..] == [SweepResume, Start];
    assert History(p, lim, build, w, [pause]) == paused;
    assert [SweepResume, Start][1..] == [Start] && [Start][1..] == [];
    var swept := React(p, lim, build, paused, SweepResume);
    assert History(p, lim, build, w, [pause, SweepResume, Start]) == React(p, lim, build, swept, Start) by {
      assert History(p, lim, build, paused, [SweepResume, Start]) == History(p, lim, build, swept, [Start]);
      assert History(p, lim, build, swept, [Start]) == React(p, lim, build, swept, Start);
    }
  }

  // ----- starting and dying -----

  lemma OneMoreEvent(p: Puzzle, lim: Limits, build: Prompts, w: World, events: seq<Event>, e: Event)
    ensures History(p, lim, build, w, events + [e]) == React(p, lim, build, History(p, lim, build, w, events), e)
  {
    HistoryAppend(p, lim, build, w, events, [e]);
    assert [e][1..] == [];
  }

  /**
   A start takes up every run that is not over, parked ones included, from its stored rows
   alone, and changes none of them.
   */
  lemma StartsExactly(p: Puzzle, lim: Limits, build: Prompts, words: seq<Word>, events: seq<Event>)
    requires words != [] && History(p, lim, build, NewRun(words), events).live.None?
    ensures var rows := History(p, lim, build, NewRun(words), events).rows;
            History(p, lim, build, NewRun(words), events + [Start])
            == World(rows, if Terminal(rows.status) then None else Some(Rebuild(rows)))
  {
    OneMoreEvent(p, lim, build, NewRun(words), events, Start);
  }

  /** A worker that dies costs what it held and nothing stored: the next one starts from the same rows. */
  lemma CrashRestarts(p: Puzzle, lim: Limits, build: Prompts, words: seq<Word>, events: seq<Event>)
    requires words != [] && History(p, lim, build, NewRun(words), events).live.Some?
    ensures var rows := History(p, lim, build, NewRun(words), events).rows;
            && History(p, lim, build, NewRun(words), events + [Crash]) == World(rows, None)
            && History(p, lim, build, NewRun(words), events + [Crash] + [Start]) == World(rows, Some(Rebuild(rows)))
  {
    HistoryStatusOk(p, lim, build, words, NewRun(words), events);
    OneMoreEvent(p, lim, build, NewRun(words), events, Crash);
    OneMoreEvent(p, lim, build, NewRun(words), events + [Crash], Start);
  }

  /** A run that ended in errors, and no other run that is over, can be retried by hand. */
  lemma RetriesExactly(p: Puzzle, lim: Limits, build: Prompts, words: seq<Word>, events: seq<Event>)
    requires words != [] && Terminal(History(p, lim, build, NewRun(words), events).rows.status)
    ensures var rows := History(p, lim, build, NewRun(words), events).rows;
            var next := History(p, lim, build, NewRun(words), events + [ManualRetry] + [Start]);
            if rows.status == Error
            then next.rows == rows.(status := Running) && next.live == Some(Rebuild(next.rows))
            else next == World(rows, None)
  {
    HistoryStatusOk(p, lim, build, words, NewRun(words), events);
    OneMoreEvent(p, lim, build, NewRun(words), events, ManualRetry);
    OneMoreEvent(p, lim, build, NewRun(words), events + [ManualRetry], Start);
  }
}
