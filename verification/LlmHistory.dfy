/**
 An LLM run over its whole life: prompts, stored rows, crashes, parks and resumes
 (runLlmStrategy in llm-strategy-runner.service.ts, flushBatch in
 strategy-run-store.service.ts).
 */
module LlmHistory {
  import opened Options
  import opened Puzzles
  import opened LlmLoop
  import opened TokenBound

  datatype PromptType = InitialSolve | Retry

  datatype PromptStatus = Parsed | MalformedNoAnswerBlock | CallErrorStatus

  /** A SolvePrompt row with the proposals that link to it. */
  datatype PromptRow = PromptRow(
    promptNumber: nat,
    attemptNumber: nat,
    promptType: PromptType,
    status: PromptStatus,
    promptText: string,
    rawResponseText: Option<string>,
    requestBody: Option<seq<Message>>,
    proposals: seq<ProposalRow>)

  /** buildInitialPrompt and buildRetryPrompt, as functions of what they are given. */
  datatype Prompts = Prompts(initial: seq<Word> -> string,
                             retry: (seq<Word>, seq<seq<Word>>, FailedGuess) -> string)

  /** What is stored for one run. */
  datatype Rows = Rows(availableWords: seq<Word>, status: RunStatus, guesses: seq<GuessRow>, prompts: seq<PromptRow>)

  /** What one worker holds in memory; duplicateErrors counts its duplicate_group calls. */
  datatype Live = Live(loop: Loop, messages: seq<Message>, promptNumber: nat, known: Option<KnownPrefix>,
                       duplicateErrors: nat)

  datatype World = World(rows: Rows, live: Option<Live>)

  // ----- replaying stored guesses -----

  /** The part of the loop state that a resume rebuilds from stored guesses. */
  datatype Memory = Memory(
    guessCount: nat,
    duplicateCount: nat,
    failedGuessCount: nat,
    lockedInGroups: seq<seq<Word>>,
    lastFailedGuess: Option<FailedGuess>,
    priorGuesses: seq<PriorGuess>)

  const NOTHING := Memory(0, 0, 0, [], None, [])

  function RecallOne(m: Memory, g: GuessRow): Memory {
    var t := m.(guessCount := m.guessCount + 1, priorGuesses := m.priorGuesses + [PriorGuess(g.words, g.result)]);
    if g.result == Success then
      t.(lockedInGroups := m.lockedInGroups + [g.words], lastFailedGuess := None)
    else
      t.(failedGuessCount := m.failedGuessCount + 1,
         duplicateCount := m.duplicateCount + if g.result == Duplicate then 1 else 0,
         lastFailedGuess := Some(FailedGuess(g.words, ResultText(g.result))))
  }

  function Recall(m: Memory, guesses: seq<GuessRow>): Memory
    decreases |guesses|
  {
    if guesses == [] then m else Recall(RecallOne(m, guesses[0]), guesses[1..])
  }

  function BoardOne(words: seq<Word>, g: GuessRow): seq<Word> {
    if g.result == Success then Without(words, g.words) else words
  }

  /** The words left after the stored successes. */
  function Board(words: seq<Word>, guesses: seq<GuessRow>): seq<Word>
    decreases |guesses|
  {
    if guesses == [] then words else Board(BoardOne(words, guesses[0]), guesses[1..])
  }

  lemma {:induction false} RecallAppend(m: Memory, a: seq<GuessRow>, b: seq<GuessRow>)
    ensures Recall(m, a + b) == Recall(Recall(m, a), b)
    decreases |a|
  {
    if a == [] {
      assert a + b == b;
    } else {
      assert (a + b)[1..] == a[1..] + b;
      RecallAppend(RecallOne(m, a[0]), a[1..], b);
    }
  }

  lemma {:induction false} BoardAppend(words: seq<Word>, a: seq<GuessRow>, b: seq<GuessRow>)
    ensures Board(words, a + b) == Board(Board(words, a), b)
    decreases |a|
  {
    if a == [] {
      assert a + b == b;
    } else {
      assert (a + b)[1..] == a[1..] + b;
      BoardAppend(BoardOne(words, a[0]), a[1..], b);
    }
  }

  /** As a set, what is left is the original words minus every successful group. */
  lemma {:induction false} BoardMeans(words: seq<Word>, guesses: seq<GuessRow>, w: Word)
    ensures w in Board(words, guesses) <==>
            w in words && InNoSuccess(w, guesses)
    decreases |guesses|
  {
    if guesses != [] {
      BoardMeans(BoardOne(words, guesses[0]), guesses[1..], w);
      assert forall i :: 0 < i < |guesses| ==> guesses[i] == guesses[1..][i - 1];
    }
  }

  function MemoryOf(s: Loop): Memory {
    Memory(s.guessCount, s.duplicateCount, s.failedGuessCount, s.lockedInGroups, s.lastFailedGuess, s.priorGuesses)
  }

  /** The guesses a step submitted, in the order of its proposals. */
  function Used(proposals: seq<ProposalRow>): seq<GuessRow> {
    if proposals == [] then []
    else (if proposals[0].guess.Some? then [proposals[0].guess.value] else []) + Used(proposals[1..])
  }

  lemma {:induction false} UsedUnused(proposals: seq<seq<Word>>)
    ensures Used(Unused(proposals)) == []
  {
    if proposals != [] {
      assert Unused(proposals)[1..] == Unused(proposals[1..]);
      UsedUnused(proposals[1..]);
    }
  }

  ghost predicate NumberedFrom(guesses: seq<GuessRow>, n: nat) {
    forall i :: 0 <= i < |guesses| ==> guesses[i].sequenceNumber == n + i + 1
  }

  /** A batch changes the rebuilt part of the state exactly as replaying its guesses does. */
  lemma {:induction false} SubmitIsRecall(p: Puzzle, lim: Limits, s: Loop, proposals: seq<seq<Word>>)
    ensures var b := Submit(p, lim, s, proposals);
            && MemoryOf(b.loop) == Recall(MemoryOf(s), Used(b.rows))
            && b.loop.availableWords == Board(s.availableWords, Used(b.rows))
            && NumberedFrom(Used(b.rows), s.guessCount)
    decreases |proposals|
  {
    if proposals != [] {
      var b := Submit(p, lim, s, proposals);
      match Canonical(p, s.availableWords, proposals[0])
      case None =>
        SubmitIsRecall(p, lim, s, proposals[1..]);
        assert b.rows[1..] == Submit(p, lim, s, proposals[1..]).rows;
        assert Used(b.rows) == Used(b.rows[1..]);
      case Some(guess) =>
        var r := Verdict(p, s.priorGuesses, guess);
        var t := AfterSubmit(lim, s, guess, r);
        var g := GuessRow(guess, r, t.guessCount);
        assert MemoryOf(t) == RecallOne(MemoryOf(s), g);
        assert t.availableWords == BoardOne(s.availableWords, g);
        if r != Success || t.status == Completed {
          UsedUnused(proposals[1..]);
          assert b.rows[1..] == Unused(proposals[1..]);
        } else {
          SubmitIsRecall(p, lim, t, proposals[1..]);
          assert b.rows[1..] == Submit(p, lim, t, proposals[1..]).rows;
        }
    }
  }

  function DuplicateErrors(o: Outcome): nat {
    if o.CallError? && o.code == DuplicateGroup then 1 else 0
  }

  lemma IterateIsRecall(p: Puzzle, lim: Limits, s: Loop, o: Outcome)
    ensures var b := Iterate(p, lim, s, o);
            var m := Recall(MemoryOf(s), Used(b.rows));
            && MemoryOf(b.loop) == m.(duplicateCount := m.duplicateCount + DuplicateErrors(o))
            && b.loop.availableWords == Board(s.availableWords, Used(b.rows))
            && NumberedFrom(Used(b.rows), s.guessCount)
  {
    if o.Reply? && o.groupsFound {
      var s1 := s.(consecutiveModelErrors := 0, rateLimitStreak := 0, rateLimitStreakStartedAt := None);
      SubmitIsRecall(p, lim, s1, Entries(o.proposalWords));
    }
  }

  // ----- one call, from prompt to flush -----

  function BuildPrompt(build: Prompts, available: seq<Word>, locked: seq<seq<Word>>, last: Option<FailedGuess>)
    : string
  {
    match last
    case Some(f) => build.retry(available, locked, f)
    case None => build.initial(available)
  }

  function TypeFor(last: Option<FailedGuess>): PromptType {
    if last.Some? then Retry else InitialSolve
  }

  function Turn(m: Message): string {
    "[" + (if m.role == User then "User" else "Assistant") + "]\n" + m.content
  }

  /** The transcript format shared by the runner and the backfill script. */
  function Format(turns: seq<Message>): string {
    if turns == [] then ""
    else if |turns| == 1 then Turn(turns[0])
    else Format(turns[..|turns| - 1]) + "\n\n" + Turn(turns[|turns| - 1])
  }

  /** What is echoed into the conversation for a reply. */
  function Echo(o: Outcome): string
    requires o.Reply?
  {
    if o.groupsFound && o.multipleProposals then o.compactAnswer else o.response
  }

  function Request(build: Prompts, live: Live): seq<Message> {
    live.messages + [Message(User, BuildPrompt(build, live.loop.availableWords, live.loop.lockedInGroups,
                                               live.loop.lastFailedGuess))]
  }

  function CallRow(p: Puzzle, lim: Limits, build: Prompts, live: Live, o: Outcome, captured: bool): PromptRow {
    PromptRow(live.promptNumber + 1, 1, TypeFor(live.loop.lastFailedGuess),
              if o.CallError? then CallErrorStatus else if o.groupsFound then Parsed else MalformedNoAnswerBlock,
              Format(Request(build, live)),
              if o.Reply? then Some(o.response) else None,
              if captured then Some(Request(build, live)) else None,
              Iterate(p, lim, live.loop, o).rows)
  }

  function AfterCall(p: Puzzle, lim: Limits, build: Prompts, live: Live, o: Outcome): Live {
    var request := Request(build, live);
    Live(Iterate(p, lim, live.loop, o).loop,
         if o.Reply? then request + [Message(Assistant, Echo(o))] else live.messages,
         live.promptNumber + 1,
         if o.Reply? && o.promptTokens.Some?
         then Some(KnownPrefixAfterReply(|request|, o.promptTokens.value, Echo(o))) else live.known,
         live.duplicateErrors + DuplicateErrors(o))
  }

  /** flushBatch: the call's prompt, proposals and guesses and the run row commit together. */
  function Flush(rows: Rows, live: Live, row: PromptRow): Rows {
    Rows(live.loop.availableWords, live.loop.status, rows.guesses + Used(row.proposals), rows.prompts + [row])
  }

  // ----- starting and resuming -----

  function LastPromptNumber(prompts: seq<PromptRow>): nat {
    if prompts == [] then 0
    else var n := LastPromptNumber(prompts[..|prompts| - 1]);
         if prompts[|prompts| - 1].promptNumber > n then prompts[|prompts| - 1].promptNumber else n
  }

  /** The latest row's own request without its trailing user turn, or nothing. */
  function ReconstructMessages(prompts: seq<PromptRow>): seq<Message> {
    if prompts == [] then []
    else match prompts[|prompts| - 1].requestBody
      case Some(request) => if request == [] then [] else request[..|request| - 1]
      case None => []
  }

  function LoopFrom(available: seq<Word>, m: Memory): Loop {
    Loop(available, Running, m.guessCount, m.duplicateCount, m.failedGuessCount, 0, 0, 0, None,
         m.lockedInGroups, m.lastFailedGuess, m.priorGuesses)
  }

  function Rebuild(rows: Rows): Live {
    Live(LoopFrom(rows.availableWords, Recall(NOTHING, rows.guesses)),
         ReconstructMessages(rows.prompts), LastPromptNumber(rows.prompts), None, 0)
  }

  function CountResult(guesses: seq<GuessRow>, r: GuessResult): (n: nat)
    ensures n <= |guesses|
  {
    if guesses == [] then 0
    else CountResult(guesses[..|guesses| - 1], r) + if guesses[|guesses| - 1].result == r then 1 else 0
  }

  function Prior(guesses: seq<GuessRow>): seq<PriorGuess> {
    seq(|guesses|, i requires 0 <= i < |guesses| => PriorGuess(guesses[i].words, guesses[i].result))
  }

  lemma RecallLast(guesses: seq<GuessRow>)
    requires guesses != []
    ensures Recall(NOTHING, guesses) == RecallOne(Recall(NOTHING, guesses[..|guesses| - 1]), guesses[|guesses| - 1])
  {
    var front, last := guesses[..|guesses| - 1], guesses[|guesses| - 1];
    RecallAppend(NOTHING, front, [last]);
    assert guesses == front + [last];
  }

  /** Counting by filtering agrees with counting along the replay. */
  lemma {:induction false} CountsAgree(guesses: seq<GuessRow>)
    ensures var m := Recall(NOTHING, guesses);
            && m.guessCount == |guesses| && m.priorGuesses == Prior(guesses)
            && m.duplicateCount == CountResult(guesses, Duplicate)
            && m.failedGuessCount == |guesses| - CountResult(guesses, Success)
    decreases |guesses|
  {
    if guesses != [] {
      var front := guesses[..|guesses| - 1];
      RecallLast(guesses);
      CountsAgree(front);
      assert Prior(guesses) == Prior(front) + [Prior(guesses)[|front|]];
    }
  }

  /** The rebuild as the runner writes it: counts by filtering, then one replay loop. */
  method RebuildLoop(available: seq<Word>, guesses: seq<GuessRow>) returns (run: LlmRun)
    ensures fresh(run) && run.State() == LoopFrom(available, Recall(NOTHING, guesses))
  {
    var lockedInGroups: seq<seq<Word>> := [];
    var lastFailedGuess: Option<FailedGuess> := None;
    for i := 0 to |guesses|
      invariant lockedInGroups == Recall(NOTHING, guesses[..i]).lockedInGroups
      invariant lastFailedGuess == Recall(NOTHING, guesses[..i]).lastFailedGuess
    {
      var guess := guesses[i];
      RecallLast(guesses[..i + 1]);
      assert guesses[..i + 1][..i] == guesses[..i];
      if guess.result == Success {
        lockedInGroups := lockedInGroups + [guess.words];
        lastFailedGuess := None;
      } else {
        var resultStr := if guess.result == OffByOne then "one away" else "incorrect";
        lastFailedGuess := Some(FailedGuess(guess.words, resultStr));
      }
    }
    assert guesses[..|guesses|] == guesses;
    CountsAgree(guesses);
    run := new LlmRun(Loop(available, Running, |guesses|, CountResult(guesses, Duplicate),
                           |guesses| - CountResult(guesses, Success), 0, 0, 0, None,
                           lockedInGroups, lastFailedGuess, Prior(guesses)));
  }

  // ----- every history -----

  /** Things that can happen to a run. */
  datatype Event =
    | Start                             // a worker picks the job up and passes the hold gate
    | Call(o: Outcome, captured: bool)  // one loop iteration, flushed
    | Crash                             // the worker dies; anything unflushed is lost
    | BudgetPause                       // no room for the next call: the run is parked
    | GatePause                         // the model is held: the run is parked before it starts
    | SweepResume                       // a sweep flips a parked run back to RUNNING
    | ManualRetry                       // an errored run is set back to RUNNING

  function React(p: Puzzle, lim: Limits, build: Prompts, w: World, e: Event): World {
    match (e, w.live)
    case (Start, None) =>
      if w.rows.status == Running || w.rows.status == RateLimitedDaily
      then w.(live := Some(Rebuild(w.rows))) else w
    case (Call(o, captured), Some(live)) =>
      var next := AfterCall(p, lim, build, live, o);
      World(Flush(w.rows, next, CallRow(p, lim, build, live, o, captured)),
            if next.loop.status == Running then Some(next) else None)
    case (Crash, _) => w.(live := None)
    case (BudgetPause, Some(_)) => World(w.rows.(status := RateLimitedDaily), None)
    case (GatePause, None) =>
      if w.rows.status == Running then World(w.rows.(status := RateLimitedDaily), None) else w
    case (SweepResume, None) =>
      if w.rows.status == RateLimitedDaily then World(w.rows.(status := Running), None) else w
    case (ManualRetry, None) =>
      if w.rows.status == Error then World(w.rows.(status := Running), None) else w
    case _ => w
  }

  function History(p: Puzzle, lim: Limits, build: Prompts, w: World, events: seq<Event>): World
    decreases |events|
  {
    if events == [] then w else History(p, lim, build, React(p, lim, build, w, events[0]), events[1..])
  }

  function NewRun(words: seq<Word>): World {
    World(Rows(words, Running, [], []), None)
  }

  function UsedIn(prompts: seq<PromptRow>): seq<GuessRow> {
    if prompts == [] then [] else UsedIn(prompts[..|prompts| - 1]) + Used(prompts[|prompts| - 1].proposals)
  }

  /** The stored prompts: numbered upwards, typed by the state they were sent in, guessless on errors. */
  ghost predicate WellLogged(prompts: seq<PromptRow>) {
    prompts != [] ==>
      var front, row := prompts[..|prompts| - 1], prompts[|prompts| - 1];
      && WellLogged(front)
      && row.promptNumber == LastPromptNumber(front) + 1 && row.attemptNumber == 1
      && row.promptType == TypeFor(Recall(NOTHING, UsedIn(front)).lastFailedGuess)
      && (row.status == CallErrorStatus ==> Used(row.proposals) == [])
      && NumberedFrom(Used(row.proposals), |UsedIn(front)|)
  }

  /** The live state is the replay of the stored guesses, but for duplicate_group errors. */
  ghost predicate LiveAgrees(rows: Rows, live: Live) {
    var m := Recall(NOTHING, rows.guesses);
    && MemoryOf(live.loop) == m.(duplicateCount := m.duplicateCount + live.duplicateErrors)
    && live.loop.availableWords == rows.availableWords
    && live.loop.status == Running
    && live.promptNumber == LastPromptNumber(rows.prompts)
  }

  ghost predicate Consistent(words: seq<Word>, w: World) {
    && w.rows.availableWords == Board(words, w.rows.guesses)
    && w.rows.guesses == UsedIn(w.rows.prompts)
    && NumberedFrom(w.rows.guesses, 0)
    && WellLogged(w.rows.prompts)
    && (w.live.Some? ==> LiveAgrees(w.rows, w.live.value))
  }

  lemma {:induction false} RecallCounts(m: Memory, guesses: seq<GuessRow>)
    ensures Recall(m, guesses).guessCount == m.guessCount + |guesses|
    decreases |guesses|
  {
    if guesses != [] {
      RecallCounts(RecallOne(m, guesses[0]), guesses[1..]);
    }
  }

  lemma CallKeepsLive(p: Puzzle, lim: Limits, build: Prompts, words: seq<Word>, rows: Rows, live: Live, o: Outcome)
    requires LiveAgrees(rows, live) && rows.availableWords == Board(words, rows.guesses)
    ensures var next := AfterCall(p, lim, build, live, o);
            var guesses := rows.guesses + Used(Iterate(p, lim, live.loop, o).rows);
            var m := Recall(NOTHING, guesses);
            && MemoryOf(next.loop) == m.(duplicateCount := m.duplicateCount + next.duplicateErrors)
            && next.loop.availableWords == Board(words, guesses)
            && NumberedFrom(Used(Iterate(p, lim, live.loop, o).rows), |rows.guesses|)
  {
    var used := Used(Iterate(p, lim, live.loop, o).rows);
    IterateIsRecall(p, lim, live.loop, o);
    RecallCounts(NOTHING, rows.guesses);
    RecallAppend(NOTHING, rows.guesses, used);
    BoardAppend(words, rows.guesses, used);
    RecallShift(Recall(NOTHING, rows.guesses), live.duplicateErrors, used);
  }

  lemma FlushConsistent(words: seq<Word>, rows: Rows, next: Live, row: PromptRow, guesses: seq<GuessRow>)
    requires guesses == rows.guesses + Used(row.proposals) && rows.guesses == UsedIn(rows.prompts)
    requires NumberedFrom(rows.guesses, 0) && NumberedFrom(Used(row.proposals), |rows.guesses|)
    requires WellLogged(rows.prompts + [row])
    requires UsedIn(rows.prompts + [row]) == UsedIn(rows.prompts) + Used(row.proposals)
    requires LastPromptNumber(rows.prompts + [row]) == next.promptNumber
    requires var m := Recall(NOTHING, guesses);
             MemoryOf(next.loop) == m.(duplicateCount := m.duplicateCount + next.duplicateErrors)
    requires next.loop.availableWords == Board(words, guesses)
    ensures Consistent(words, World(Flush(rows, next, row), if next.loop.status == Running then Some(next) else None))
  {
  }

  lemma CallConsistent(p: Puzzle, lim: Limits, build: Prompts, words: seq<Word>, w: World, o: Outcome, captured: bool)
    requires Consistent(words, w) && w.live.Some?
    ensures Consistent(words, React(p, lim, build, w, Call(o, captured)))
  {
    var live := w.live.value;
    var row := CallRow(p, lim, build, live, o, captured);
    CallKeepsLive(p, lim, build, words, w.rows, live, o);
    FlushConsistent(words, w.rows, AfterCall(p, lim, build, live, o), row, w.rows.guesses + Used(row.proposals));
  }

  /** Extra duplicates counted before a replay stay extra after it. */
  lemma {:induction false} RecallShift(m: Memory, extra: nat, guesses: seq<GuessRow>)
    ensures var t := Recall(m, guesses);
            Recall(m.(duplicateCount := m.duplicateCount + extra), guesses)
            == t.(duplicateCount := t.duplicateCount + extra)
    decreases |guesses|
  {
    if guesses != [] {
      RecallShift(RecallOne(m, guesses[0]), extra, guesses[1..]);
    }
  }

  lemma ReactConsistent(p: Puzzle, lim: Limits, build: Prompts, words: seq<Word>, w: World, e: Event)
    requires Consistent(words, w)
    ensures Consistent(words, React(p, lim, build, w, e))
  {
    if e.Call? && w.live.Some? {
      CallConsistent(p, lim, build, words, w, e.o, e.captured);
    }
  }

  lemma {:induction false} HistoryConsistent(p: Puzzle, lim: Limits, build: Prompts, words: seq<Word>, w: World,
                                             events: seq<Event>)
    requires Consistent(words, w)
    ensures Consistent(words, History(p, lim, build, w, events))
    decreases |events|
  {
    if events != [] {
      ReactConsistent(p, lim, build, words, w, events[0]);
      HistoryConsistent(p, lim, build, words, React(p, lim, build, w, events[0]), events[1..]);
    }
  }

  /**
   Resume refinement: however a run was parked, crashed and resumed, its stored
   guesses are numbered 1..n, its stored board is the original words minus the
   locked-in groups, and folding the stored guesses gives the live counters,
   groups and feedback exactly - the duplicate count but for duplicate_group errors.
   */
  lemma ResumeRefinement(p: Puzzle, lim: Limits, build: Prompts, words: seq<Word>, events: seq<Event>)
    ensures var w := History(p, lim, build, NewRun(words), events);
            var m := Recall(NOTHING, w.rows.guesses);
            && NumberedFrom(w.rows.guesses, 0)
            && (forall x :: x in w.rows.availableWords <==>
                  x in words && InNone(x, m.lockedInGroups))
            && (w.live.Some? ==>
                  && MemoryOf(w.live.value.loop)
                     == m.(duplicateCount := m.duplicateCount + w.live.value.duplicateErrors)
                  && w.live.value.loop.availableWords == w.rows.availableWords)
  {
    HistoryConsistent(p, lim, build, words, NewRun(words), events);
    var guesses := History(p, lim, build, NewRun(words), events).rows.guesses;
    forall x
      ensures x in Board(words, guesses) <==> x in words && InNone(x, Recall(NOTHING, guesses).lockedInGroups)
    {
      BoardMeans(words, guesses, x);
      LockedMeans(NOTHING, guesses, x);
    }
  }

  ghost predicate InNone(x: Word, groups: seq<seq<Word>>) {
    forall i :: 0 <= i < |groups| ==> x !in groups[i]
  }

  ghost predicate InNoSuccess(x: Word, guesses: seq<GuessRow>) {
    forall i :: 0 <= i < |guesses| && guesses[i].result == Success ==> x !in guesses[i].words
  }

  lemma {:induction false} LockedMeans(m: Memory, guesses: seq<GuessRow>, x: Word)
    ensures InNone(x, Recall(m, guesses).lockedInGroups) <==> InNone(x, m.lockedInGroups) && InNoSuccess(x, guesses)
    decreases |guesses|
  {
    if guesses != [] {
      var g, n := guesses[0], RecallOne(m, guesses[0]);
      LockedMeans(n, guesses[1..], x);
      assert guesses == [g] + guesses[1..];
      assert InNoSuccess(x, guesses) <==> (g.result == Success ==> x !in g.words) && InNoSuccess(x, guesses[1..]) by {
        assert forall i :: 0 < i < |guesses| ==> guesses[i] == guesses[1..][i - 1];
        assert forall i :: 0 <= i < |guesses[1..]| ==> guesses[1..][i] == guesses[i + 1];
      }
      if g.result == Success {
        InNoneAppend(x, m.lockedInGroups, g.words);
      }
    }
  }

  lemma InNoneAppend(x: Word, groups: seq<seq<Word>>, g: seq<Word>)
    ensures InNone(x, groups + [g]) <==> InNone(x, groups) && x !in g
  {
    assert (groups + [g])[|groups|] == g;
    assert forall i :: 0 <= i < |groups| ==> (groups + [g])[i] == groups[i];
  }

  // ----- what a restart remembers -----

  /** The conversation up to a row's prompt and reply, of which a rebuild keeps all but that exchange. */
  ghost predicate OneExchangeLost(row: PromptRow, messages: seq<Message>, rebuilt: seq<Message>) {
    && row.status != CallErrorStatus && |messages| == |rebuilt| + 2 && rebuilt <= messages
    && messages[|rebuilt|].role == User && messages[|rebuilt| + 1].role == Assistant
    && row.promptText == Format(messages[..|rebuilt| + 1])
  }

  /**
   The rebuilt conversation against the worker's own: the same, or without the latest
   row's exchange; or nothing, when that row's request was not captured.
   */
  ghost predicate Remembers(rows: Rows, live: Live) {
    var rebuilt := ReconstructMessages(rows.prompts);
    || rebuilt == live.messages
    || (rows.prompts != [] &&
        var row := rows.prompts[|rows.prompts| - 1];
        if row.requestBody.None? then rebuilt == [] else OneExchangeLost(row, live.messages, rebuilt))
  }

  lemma CallRemembers(p: Puzzle, lim: Limits, build: Prompts, rows: Rows, live: Live, o: Outcome, captured: bool)
    ensures var next := AfterCall(p, lim, build, live, o);
            Remembers(Flush(rows, next, CallRow(p, lim, build, live, o, captured)), next)
  {
    var next, row := AfterCall(p, lim, build, live, o), CallRow(p, lim, build, live, o, captured);
    var request := Request(build, live);
    var prompts := rows.prompts + [row];
    assert prompts[|prompts| - 1] == row && request[..|request| - 1] == live.messages;
    if captured && o.Reply? {
      assert next.messages[..|request|] == request;
      assert OneExchangeLost(row, next.messages, live.messages);
    }
  }

  ghost predicate AllRemembered(w: World) {
    w.live.Some? ==> Remembers(w.rows, w.live.value)
  }

  lemma {:induction false} HistoryRemembers(p: Puzzle, lim: Limits, build: Prompts, w: World, events: seq<Event>)
    requires AllRemembered(w)
    ensures AllRemembered(History(p, lim, build, w, events))
    decreases |events|
  {
    if events != [] {
      var e := events[0];
      if e.Call? && w.live.Some? {
        CallRemembers(p, lim, build, w.rows, w.live.value, e.o, e.captured);
      }
      HistoryRemembers(p, lim, build, React(p, lim, build, w, e), events[1..]);
    }
  }

  /**
   A worker that crashes between calls costs its failure streaks, and at most one
   exchange of a captured conversation: the resumed worker's next prompt is the very
   prompt the dead one would have sent, and, if no duplicate_group error occurred,
   every persistent counter is the same.
   */
  lemma RestartContinues(p: Puzzle, lim: Limits, build: Prompts, words: seq<Word>, events: seq<Event>)
    requires History(p, lim, build, NewRun(words), events).live.Some?
    ensures var w := History(p, lim, build, NewRun(words), events);
            var s, t := w.live.value.loop, Rebuild(w.rows).loop;
            && BuildPrompt(build, t.availableWords, t.lockedInGroups, t.lastFailedGuess)
               == BuildPrompt(build, s.availableWords, s.lockedInGroups, s.lastFailedGuess)
            && Rebuild(w.rows).promptNumber == w.live.value.promptNumber
            && (w.live.value.duplicateErrors == 0 ==>
                  t == s.(malformedCount := 0, consecutiveModelErrors := 0, rateLimitStreak := 0,
                          rateLimitStreakStartedAt := None))
    ensures var w := History(p, lim, build, NewRun(words), events);
            Remembers(w.rows, w.live.value)
  {
    HistoryConsistent(p, lim, build, words, NewRun(words), events);
    HistoryRemembers(p, lim, build, NewRun(words), events);
  }

  /**
   After one more call, exactly when a crash is invisible to the model: the resumed
   worker's whole next request, conversation and prompt, is the dead worker's, iff that
   call failed with its request captured, or had no conversation to lose.
   */
  lemma CrashIsInvisible(p: Puzzle, lim: Limits, build: Prompts, words: seq<Word>, events: seq<Event>, o: Outcome,
                         captured: bool)
    requires var w := History(p, lim, build, NewRun(words), events);
             w.live.Some? && React(p, lim, build, w, Call(o, captured)).live.Some?
    ensures var w := History(p, lim, build, NewRun(words), events);
            var t := React(p, lim, build, w, Call(o, captured));
            Request(build, Rebuild(t.rows)) == Request(build, t.live.value)
            <==> o.CallError? && (captured || w.live.value.messages == [])
  {
    var w := History(p, lim, build, NewRun(words), events);
    var live := w.live.value;
    HistoryConsistent(p, lim, build, words, NewRun(words), events);
    ReactConsistent(p, lim, build, words, w, Call(o, captured));
    var t := React(p, lim, build, w, Call(o, captured));
    var row := CallRow(p, lim, build, live, o, captured);
    assert t.rows.prompts == w.rows.prompts + [row];
    assert t.live.value.messages == AfterCall(p, lim, build, live, o).messages;
    var request, rebuilt := Request(build, live), Rebuild(t.rows);
    assert request[..|request| - 1] == live.messages;
    assert rebuilt.messages == if captured then live.messages else [];
    assert Request(build, rebuilt)[..|rebuilt.messages|] == rebuilt.messages;
    assert Request(build, t.live.value)[..|t.live.value.messages|] == t.live.value.messages;
  }

  // ----- token bounds along a run -----

  /** Every reply that reports its prompt tokens reports no less than the request really cost. */
  ghost predicate Honest(cost: seq<Message> -> nat, p: Puzzle, lim: Limits, build: Prompts, w: World,
                         events: seq<Event>)
    decreases |events|
  {
    events != [] ==>
      && (events[0].Call? && w.live.Some? && events[0].o.Reply? && events[0].o.promptTokens.Some? ==>
            cost(Request(build, w.live.value)) <= events[0].o.promptTokens.value)
      && Honest(cost, p, lim, build, React(p, lim, build, w, events[0]), events[1..])
  }

  ghost predicate LiveSound(cost: seq<Message> -> nat, w: World) {
    w.live.Some? ==> Sound(cost, w.live.value.messages, w.live.value.known)
  }

  lemma {:induction false} HistorySound(cost: seq<Message> -> nat, p: Puzzle, lim: Limits, build: Prompts, w: World,
                                        events: seq<Event>)
    requires RealCost(cost) && LiveSound(cost, w) && Honest(cost, p, lim, build, w, events)
    ensures LiveSound(cost, History(p, lim, build, w, events))
    decreases |events|
  {
    if events != [] {
      if events[0].Call? && w.live.Some? && events[0].o.Reply? {
        var live, o := w.live.value, events[0].o;
        var request := Request(build, live);
        if o.promptTokens.Some? {
          AfterReplySound(cost, request, o.promptTokens.value, Echo(o));
        } else {
          SoundAppend(cost, live.messages, request[|live.messages|..] + [Message(Assistant, Echo(o))], live.known);
          assert live.messages + (request[|live.messages|..] + [Message(Assistant, Echo(o))])
                 == request + [Message(Assistant, Echo(o))];
        }
      }
      HistorySound(cost, p, lim, build, React(p, lim, build, w, events[0]), events[1..]);
    }
  }

  /**
   Whatever calls failed, popped their turn or were echoed in compact form, the
   bound computed before the next call is at least what that call really costs,
   so with its output cap it covers the call's total tokens.
   */
  lemma NextCallIsCovered(cost: seq<Message> -> nat, p: Puzzle, lim: Limits, build: Prompts, words: seq<Word>,
                          events: seq<Event>, maxOutputTokens: nat, completionTokens: nat)
    requires RealCost(cost) && Honest(cost, p, lim, build, NewRun(words), events)
    requires History(p, lim, build, NewRun(words), events).live.Some?
    requires completionTokens <= maxOutputTokens
    ensures var live := History(p, lim, build, NewRun(words), events).live.value;
            cost(Request(build, live)) + completionTokens
            <= maxOutputTokens + UpperBound(Request(build, live), live.known)
  {
    HistorySound(cost, p, lim, build, NewRun(words), events);
    var live := History(p, lim, build, NewRun(words), events).live.value;
    SoundAppend(cost, live.messages, Request(build, live)[|live.messages|..], live.known);
    assert live.messages + Request(build, live)[|live.messages|..] == Request(build, live);
    UpperBoundSound(cost, Request(build, live), live.known);
  }
}
