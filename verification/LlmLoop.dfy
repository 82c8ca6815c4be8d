/**
 The LLM run loop: evaluateProposals, classifyFailedCall and the body of the
 `while (true)` of runLlmStrategy
 (backend/src/modules/strategy/llm-strategy-runner.service.ts).
 */
module LlmLoop {
  import opened Options
  import opened Puzzles
  import opened WordLists

  datatype RunStatus = Running | Completed | Failed | DuplicateStop | MalformedResponse | Error | RateLimitedDaily

  datatype FailedGuess = FailedGuess(items: seq<Word>, result: string)

  datatype PriorGuess = PriorGuess(words: seq<Word>, result: GuessResult)

  /** A stored Guess row of a run. */
  datatype GuessRow = GuessRow(words: seq<Word>, result: GuessResult, sequenceNumber: nat)

  /** A stored LlmProposal row; `guess` is set exactly when its status is 'used'. */
  datatype ProposalRow = ProposalRow(words: seq<Word>, guess: Option<GuessRow>)

  /** Mistral's escalation of a streak of rate limits into a park. */
  datatype Park = Park(attempts: nat, elapsedMs: int)

  datatype Limits = Limits(maxDuplicates: nat, maxFailedGuesses: nat, maxMalformed: nat, maxModelErrors: nat,
                           park: Option<Park>)

  datatype ErrorCode = RateLimitedDailyCode | RateLimited | ModelError | DuplicateGroup | InvalidGroup

  /** What a call to the orchestrator can come back with. */
  datatype Outcome =
    | Reply(response: string, groupsFound: bool, proposalWords: seq<Option<seq<Word>>>,
            multipleProposals: bool, compactAnswer: string, promptTokens: Option<nat>)
    | CallError(code: ErrorCode, now: int)

  /** The run row's mutable part and LlmRunLoopState. */
  datatype Loop = Loop(
    availableWords: seq<Word>,
    status: RunStatus,
    guessCount: nat,
    duplicateCount: nat,
    failedGuessCount: nat,
    malformedCount: nat,
    consecutiveModelErrors: nat,
    rateLimitStreak: nat,
    rateLimitStreakStartedAt: Option<int>,
    lockedInGroups: seq<seq<Word>>,
    lastFailedGuess: Option<FailedGuess>,
    priorGuesses: seq<PriorGuess>)

  // ----- evaluateProposals -----

  predicate AllIn(words: seq<Word>, pool: seq<Word>) {
    forall w :: w in words ==> w in pool
  }

  /** The words a proposal is submitted as, or nothing when it is skipped. */
  function Canonical(p: Puzzle, available: seq<Word>, words: seq<Word>): (r: Option<seq<Word>>)
    ensures r.Some? ==> AllIn(r.value, available)
  {
    if AllIn(words, available) then Some(words)
    else
      match MatchFrom(p, words, 0)
      case Some(g) => if AllIn(g, available) then Some(g) else None
      case None => None
  }

  predicate Covers(guess: seq<Word>, prior: seq<Word>) {
    |prior| == |guess| && forall w :: w in prior ==> w in guess
  }

  predicate IsDuplicate(prior: seq<PriorGuess>, guess: seq<Word>) {
    exists i :: 0 <= i < |prior| && Covers(guess, prior[i].words)
  }

  function Verdict(p: Puzzle, prior: seq<PriorGuess>, guess: seq<Word>): GuessResult {
    if IsDuplicate(prior, guess) then Duplicate else Evaluate(p, guess)
  }

  function ResultText(r: GuessResult): string {
    if r == OffByOne then "one away" else "incorrect"
  }

  /** The loop state after one guess with the given verdict. */
  function AfterSubmit(lim: Limits, s: Loop, guess: seq<Word>, r: GuessResult): Loop {
    var t := s.(guessCount := s.guessCount + 1, priorGuesses := s.priorGuesses + [PriorGuess(guess, r)]);
    if r == Success then
      var rest := Without(s.availableWords, guess);
      t.(availableWords := rest,
         lockedInGroups := s.lockedInGroups + [guess],
         lastFailedGuess := None,
         status := if rest == [] then Completed else s.status)
    else
      var duplicates := s.duplicateCount + if r == Duplicate then 1 else 0;
      var failures := s.failedGuessCount + 1;
      t.(failedGuessCount := failures,
         duplicateCount := duplicates,
         lastFailedGuess := Some(FailedGuess(guess, ResultText(r))),
         status := if failures >= lim.maxFailedGuesses then Failed
                   else if r == Duplicate && duplicates >= lim.maxDuplicates then DuplicateStop
                   else s.status)
  }

  datatype Batch = Batch(loop: Loop, rows: seq<ProposalRow>)

  /** Submits proposals in order, stopping at the first miss or once the board is empty. */
  function Submit(p: Puzzle, lim: Limits, s: Loop, proposals: seq<seq<Word>>): (b: Batch)
    ensures |b.rows| == |proposals|
    decreases |proposals|
  {
    if proposals == [] then Batch(s, [])
    else
      match Canonical(p, s.availableWords, proposals[0])
      case None =>
        var b := Submit(p, lim, s, proposals[1..]);
        Batch(b.loop, [ProposalRow(proposals[0], None)] + b.rows)
      case Some(guess) =>
        var r := Verdict(p, s.priorGuesses, guess);
        var t := AfterSubmit(lim, s, guess, r);
        var row := ProposalRow(guess, Some(GuessRow(guess, r, t.guessCount)));
        if r != Success || t.status == Completed then Batch(t, [row] + Unused(proposals[1..]))
        else
          var b := Submit(p, lim, t, proposals[1..]);
          Batch(b.loop, [row] + b.rows)
  }

  /** One proposal: the state after it, its row, and whether the batch stops there. */
  datatype Tried = Tried(loop: Loop, row: ProposalRow, stop: bool)

  function TryOne(p: Puzzle, lim: Limits, s: Loop, words: seq<Word>): Tried {
    match Canonical(p, s.availableWords, words)
    case None => Tried(s, ProposalRow(words, None), false)
    case Some(guess) =>
      var r := Verdict(p, s.priorGuesses, guess);
      var t := AfterSubmit(lim, s, guess, r);
      Tried(t, ProposalRow(guess, Some(GuessRow(guess, r, t.guessCount))), r != Success || t.status == Completed)
  }

  /** What is left to submit from proposal i on turns s and the rows so far into the batch. */
  ghost predicate Leads(p: Puzzle, lim: Limits, s: Loop, rows: seq<ProposalRow>, proposals: seq<seq<Word>>, i: nat,
                        batch: Batch)
    requires i <= |proposals|
  {
    var b := Submit(p, lim, s, proposals[i..]);
    batch == Batch(b.loop, rows + b.rows)
  }

  lemma LeadsOn(p: Puzzle, lim: Limits, s: Loop, rows: seq<ProposalRow>, proposals: seq<seq<Word>>, i: nat,
                batch: Batch)
    requires i < |proposals| && Leads(p, lim, s, rows, proposals, i, batch)
    ensures var t := TryOne(p, lim, s, proposals[i]);
            if t.stop then batch == Batch(t.loop, rows + [t.row] + Unused(proposals[i + 1..]))
            else Leads(p, lim, t.loop, rows + [t.row], proposals, i + 1, batch)
  {
    assert proposals[i..][0] == proposals[i] && proposals[i..][1..] == proposals[i + 1..];
    var t := TryOne(p, lim, s, proposals[i]);
    var rest := if t.stop then Unused(proposals[i + 1..]) else Submit(p, lim, t.loop, proposals[i + 1..]).rows;
    assert Submit(p, lim, s, proposals[i..]).rows == [t.row] + rest;
    assert rows + ([t.row] + rest) == rows + [t.row] + rest;
  }

  function Unused(proposals: seq<seq<Word>>): seq<ProposalRow> {
    seq(|proposals|, i requires 0 <= i < |proposals| => ProposalRow(proposals[i], None))
  }

  /** buildProposalEntries: only groups of exactly four words become proposals. */
  function Entries(proposalWords: seq<Option<seq<Word>>>): seq<seq<Word>> {
    if proposalWords == [] then []
    else (if proposalWords[0].Some? && |proposalWords[0].value| == GROUP_SIZE then [proposalWords[0].value] else [])
         + Entries(proposalWords[1..])
  }

  method BuildProposalEntries(proposalWords: seq<Option<seq<Word>>>) returns (entries: seq<seq<Word>>)
    ensures entries == Entries(proposalWords)
  {
    entries := [];
    for i := 0 to |proposalWords|
      invariant entries + Entries(proposalWords[i..]) == Entries(proposalWords)
    {
      assert proposalWords[i..][1..] == proposalWords[i + 1..];
      if proposalWords[i].None? || |proposalWords[i].value| != GROUP_SIZE {
        assert entries + ([] + Entries(proposalWords[i + 1..])) == entries + Entries(proposalWords[i + 1..]);
        continue;
      }
      entries := entries + [proposalWords[i].value];
    }
    assert proposalWords[|proposalWords|..] == [];
    assert entries + [] == entries;
  }

  // ----- what a batch stores of its proposals -----

  /** A proposal is stored as it is, or submitted as the group it names up to case and order. */
  ghost predicate RowFits(p: Puzzle, available: seq<Word>, words: seq<Word>, row: ProposalRow) {
    match row.guess
    case None => row.words == words
    case Some(g) =>
      && g.words == row.words && AllIn(row.words, available)
      && (row.words == words || (row.words in p.groups && DiffersInCase(p, words, row.words)))
  }

  /** No proposal before this one was judged a miss. */
  ghost predicate NoMissBefore(rows: seq<ProposalRow>, i: nat)
    requires i <= |rows|
  {
    forall j :: 0 <= j < i && rows[j].guess.Some? ==> rows[j].guess.value.result == Success
  }

  /** What is stored of a proposal that was not submitted: a miss came first, or it names a word that is gone. */
  ghost predicate Explained(b: Batch, proposals: seq<seq<Word>>, i: nat)
    requires i < |proposals| == |b.rows|
  {
    && (b.rows[i].guess.Some? ==> NoMissBefore(b.rows, i))
    && (b.rows[i].guess.None? && NoMissBefore(b.rows, i) && b.loop.availableWords != [] ==>
          !AllIn(proposals[i], b.loop.availableWords))
  }

  lemma CanonicalFits(p: Puzzle, available: seq<Word>, words: seq<Word>, g: GuessRow)
    requires Canonical(p, available, words) == Some(g.words)
    ensures RowFits(p, available, words, ProposalRow(g.words, Some(g)))
  {
    if !AllIn(words, available) {
      MatchMeans(p, words, 0);
    }
  }

  ghost predicate AllStored(p: Puzzle, available: seq<Word>, proposals: seq<seq<Word>>, b: Batch) {
    && |b.rows| == |proposals| && AllIn(b.loop.availableWords, available)
    && forall i :: 0 <= i < |proposals| ==> RowFits(p, available, proposals[i], b.rows[i]) && Explained(b, proposals, i)
  }

  /** Every proposal of a reply is accounted for, in its place. */
  lemma {:induction false} EveryProposalIsStored(p: Puzzle, lim: Limits, s: Loop, proposals: seq<seq<Word>>)
    requires s.status == Running
    ensures AllStored(p, s.availableWords, proposals, Submit(p, lim, s, proposals))
    decreases |proposals|
  {
    if proposals != [] {
      var t := TryOne(p, lim, s, proposals[0]);
      if t.row.guess.Some? {
        CanonicalFits(p, s.availableWords, proposals[0], t.row.guess.value);
      }
      if t.stop {
        StoppedRows(p, lim, s, proposals);
      } else {
        EveryProposalIsStored(p, lim, t.loop, proposals[1..]);
        var b, c := Submit(p, lim, s, proposals), Submit(p, lim, t.loop, proposals[1..]);
        assert b.rows == [t.row] + c.rows && b.loop == c.loop;
        GoesOn(p, s.availableWords, t.loop.availableWords, proposals, t.row, b, c);
      }
    }
  }

  lemma StoppedRows(p: Puzzle, lim: Limits, s: Loop, proposals: seq<seq<Word>>)
    requires s.status == Running && proposals != [] && TryOne(p, lim, s, proposals[0]).stop
    requires RowFits(p, s.availableWords, proposals[0], TryOne(p, lim, s, proposals[0]).row)
    ensures AllStored(p, s.availableWords, proposals, Submit(p, lim, s, proposals))
  {
    var b, row := Submit(p, lim, s, proposals), TryOne(p, lim, s, proposals[0]).row;
    assert b.rows == [row] + Unused(proposals[1..]);
    assert forall i :: 0 < i < |proposals| ==> b.rows[i] == Unused(proposals[1..])[i - 1];
  }

  lemma MissesShift(rows: seq<ProposalRow>, row: ProposalRow, i: nat)
    requires i <= |rows| && (row.guess.Some? ==> row.guess.value.result == Success)
    ensures NoMissBefore([row] + rows, i + 1) <==> NoMissBefore(rows, i)
  {
    assert forall j :: 0 < j < i + 1 ==> ([row] + rows)[j] == rows[j - 1];
    assert forall j :: 0 <= j < i ==> rows[j] == ([row] + rows)[j + 1];
  }

  lemma GoesOn(p: Puzzle, before: seq<Word>, after: seq<Word>, proposals: seq<seq<Word>>, row: ProposalRow, b: Batch,
               c: Batch)
    requires proposals != [] && AllStored(p, after, proposals[1..], c) && b == Batch(c.loop, [row] + c.rows)
    requires AllIn(after, before) && RowFits(p, before, proposals[0], row)
    requires match row.guess case Some(g) => g.result == Success case None => !AllIn(proposals[0], after)
    ensures AllStored(p, before, proposals, b)
  {
    forall i | 0 < i < |proposals|
      ensures RowFits(p, before, proposals[i], b.rows[i]) && Explained(b, proposals, i)
    {
      assert b.rows[i] == c.rows[i - 1] && proposals[i] == proposals[1..][i - 1];
      assert RowFits(p, after, proposals[1..][i - 1], c.rows[i - 1]) && Explained(c, proposals[1..], i - 1);
      MissesShift(c.rows, row, i - 1);
    }
  }

  // ----- one call -----

  function Malformed(lim: Limits, s: Loop): Loop {
    s.(malformedCount := s.malformedCount + 1,
       status := if s.malformedCount + 1 >= lim.maxMalformed then MalformedResponse else s.status)
  }

  function Classify(lim: Limits, s: Loop, code: ErrorCode, now: int): Loop {
    match code
    case RateLimitedDailyCode => s.(status := RateLimitedDaily)
    case RateLimited =>
      if lim.park.None? then s
      else
        var streak := s.rateLimitStreak + 1;
        var started := if s.rateLimitStreakStartedAt.None? then now else s.rateLimitStreakStartedAt.value;
        s.(rateLimitStreak := streak,
           rateLimitStreakStartedAt := Some(started),
           status := if streak >= lim.park.value.attempts || now - started >= lim.park.value.elapsedMs
                     then RateLimitedDaily else s.status)
    case ModelError =>
      s.(consecutiveModelErrors := s.consecutiveModelErrors + 1,
         status := if s.consecutiveModelErrors + 1 >= lim.maxModelErrors then Error else s.status)
    case DuplicateGroup =>
      s.(duplicateCount := s.duplicateCount + 1,
         status := if s.duplicateCount + 1 >= lim.maxDuplicates then DuplicateStop else s.status)
    case InvalidGroup => Malformed(lim, s)
  }

  /** A rate limit that turns into a park: the streak is long enough, or has lasted long enough. */
  predicate Escalates(lim: Limits, s: Loop, now: int) {
    && lim.park.Some?
    && (s.rateLimitStreak + 1 >= lim.park.value.attempts
        || (s.rateLimitStreakStartedAt.Some? && now - s.rateLimitStreakStartedAt.value >= lim.park.value.elapsedMs)
        || (s.rateLimitStreakStartedAt.None? && 0 >= lim.park.value.elapsedMs))
  }

  /** What a failed call counts as; for `rate_limited_daily` the caller writes a hold. */
  function EffectiveCode(lim: Limits, s: Loop, code: ErrorCode, now: int): ErrorCode {
    if code == RateLimited && Escalates(lim, s, now) then RateLimitedDailyCode else code
  }

  /** A failed call parks the run exactly when its effective code is the daily one. */
  lemma ParksExactly(lim: Limits, s: Loop, code: ErrorCode, now: int)
    requires s.status == Running
    ensures Classify(lim, s, code, now).status == RateLimitedDaily
            <==> EffectiveCode(lim, s, code, now) == RateLimitedDailyCode
    ensures EffectiveCode(lim, s, code, now) == RateLimited ==> Classify(lim, s, code, now).status == Running
  {
  }

  /** One iteration: the state after a call's outcome, and the proposal rows it leaves. */
  function Iterate(p: Puzzle, lim: Limits, s: Loop, o: Outcome): Batch {
    match o
    case CallError(code, now) => Batch(Classify(lim, s, code, now), [])
    case Reply(_, groupsFound, proposalWords, _, _, _) =>
      var s1 := s.(consecutiveModelErrors := 0, rateLimitStreak := 0, rateLimitStreakStartedAt := None);
      if !groupsFound then Batch(Malformed(lim, s1), [])
      else
        var b := Submit(p, lim, s1, Entries(proposalWords));
        if b.loop.status == Running && b.loop.guessCount == s1.guessCount
        then Batch(Malformed(lim, b.loop), b.rows) else b
  }

  // ----- the mutable object -----

  class LlmRun {
    var availableWords: seq<Word>
    var status: RunStatus
    var guessCount: nat
    var duplicateCount: nat
    var failedGuessCount: nat
    var malformedCount: nat
    var consecutiveModelErrors: nat
    var rateLimitStreak: nat
    var rateLimitStreakStartedAt: Option<int>
    var lockedInGroups: seq<seq<Word>>
    var lastFailedGuess: Option<FailedGuess>
    var priorGuesses: seq<PriorGuess>

    constructor (s: Loop)
      ensures State() == s
    {
      availableWords := s.availableWords;
      status := s.status;
      guessCount := s.guessCount;
      duplicateCount := s.duplicateCount;
      failedGuessCount := s.failedGuessCount;
      malformedCount := s.malformedCount;
      consecutiveModelErrors := s.consecutiveModelErrors;
      rateLimitStreak := s.rateLimitStreak;
      rateLimitStreakStartedAt := s.rateLimitStreakStartedAt;
      lockedInGroups := s.lockedInGroups;
      lastFailedGuess := s.lastFailedGuess;
      priorGuesses := s.priorGuesses;
    }

    function State(): Loop
      reads this
    {
      Loop(availableWords, status, guessCount, duplicateCount, failedGuessCount, malformedCount,
           consecutiveModelErrors, rateLimitStreak, rateLimitStreakStartedAt, lockedInGroups,
           lastFailedGuess, priorGuesses)
    }

    /** Records one judged guess in place. */
    method RecordGuess(lim: Limits, guess: seq<Word>, result: GuessResult)
      modifies this
      ensures State() == AfterSubmit(lim, old(State()), guess, result)
    {
      guessCount := guessCount + 1;
      priorGuesses := priorGuesses + [PriorGuess(guess, result)];
      if result == Success {
        availableWords := Without(availableWords, guess);
        lockedInGroups := lockedInGroups + [guess];
        lastFailedGuess := None;
        if availableWords == [] {
          status := Completed;
        }
      } else {
        failedGuessCount := failedGuessCount + 1;
        var resultStr := if result == OffByOne then "one away" else "incorrect";
        lastFailedGuess := Some(FailedGuess(guess, resultStr));
        if result == Duplicate {
          duplicateCount := duplicateCount + 1;
          if duplicateCount >= lim.maxDuplicates {
            status := DuplicateStop;
          }
        }
        if failedGuessCount >= lim.maxFailedGuesses {
          status := Failed;
        }
      }
    }

    method SubmitGuess(p: Puzzle, lim: Limits, guess: seq<Word>) returns (row: GuessRow)
      modifies this
      ensures row == GuessRow(guess, Verdict(p, old(priorGuesses), guess), guessCount)
      ensures State() == AfterSubmit(lim, old(State()), guess, row.result)
    {
      var result := Duplicate;
      if !IsDuplicate(priorGuesses, guess) {
        result := EvaluateGuess(p, guess);
      }
      RecordGuess(lim, guess, result);
      row := GuessRow(guess, result, guessCount);
    }

    /** The body of evaluateProposals' loop, for one proposal. */
    method TryProposal(p: Puzzle, lim: Limits, words: seq<Word>) returns (row: ProposalRow, stop: bool)
      modifies this
      ensures Tried(State(), row, stop) == TryOne(p, lim, old(State()), words)
    {
      var guessWords := words;
      if !AllIn(guessWords, availableWords) {
        var match_ := FindCaseInsensitiveGroupMatch(p, guessWords);
        if match_.None? || !AllIn(match_.value, availableWords) {
          return ProposalRow(words, None), false;
        }
        guessWords := match_.value;
      }
      var guess := SubmitGuess(p, lim, guessWords);
      row := ProposalRow(guessWords, Some(guess));
      stop := guess.result != Success || status == Completed;
    }

    method EvaluateProposals(p: Puzzle, lim: Limits, proposals: seq<seq<Word>>) returns (rows: seq<ProposalRow>)
      modifies this
      ensures Batch(State(), rows) == Submit(p, lim, old(State()), proposals)
    {
      ghost var batch := Submit(p, lim, State(), proposals);
      rows := [];
      var i := 0;
      while i < |proposals|
        invariant i <= |proposals| && Leads(p, lim, State(), rows, proposals, i, batch)
        decreases |proposals| - i
      {
        LeadsOn(p, lim, State(), rows, proposals, i, batch);
        var row, stop := TryProposal(p, lim, proposals[i]);
        rows := rows + [row];
        i := i + 1;
        if stop {
          rows := rows + Unused(proposals[i..]);
          return;
        }
      }
    }

    /** waitMs is how long the loop waits before it sends the same request again. */
    method ClassifyFailedCall(lim: Limits, code: ErrorCode, now: int, retryAfterSeconds: Option<int>,
                              fallbackSeconds: int)
      returns (effective: ErrorCode, waitMs: Option<int>)
      modifies this
      ensures State() == Classify(lim, old(State()), code, now)
      ensures effective == EffectiveCode(lim, old(State()), code, now)
      ensures waitMs.Some? <==> effective == RateLimited
      ensures waitMs.Some? ==>
                waitMs.value == 1000 * (if retryAfterSeconds.Some? then retryAfterSeconds.value else fallbackSeconds)
    {
      effective, waitMs := code, None;
      match code
      case RateLimitedDailyCode =>
        status := RateLimitedDaily;
      case RateLimited =>
        if lim.park.Some? {
          rateLimitStreak := rateLimitStreak + 1;
          if rateLimitStreakStartedAt.None? {
            rateLimitStreakStartedAt := Some(now);
          }
          var spanMs := now - rateLimitStreakStartedAt.value;
          if rateLimitStreak >= lim.park.value.attempts || spanMs >= lim.park.value.elapsedMs {
            status := RateLimitedDaily;
            return RateLimitedDailyCode, None;
          }
        }
        waitMs := Some((if retryAfterSeconds.Some? then retryAfterSeconds.value else fallbackSeconds) * 1000);
      case ModelError =>
        consecutiveModelErrors := consecutiveModelErrors + 1;
        if consecutiveModelErrors >= lim.maxModelErrors {
          status := Error;
        }
      case DuplicateGroup =>
        duplicateCount := duplicateCount + 1;
        if duplicateCount >= lim.maxDuplicates {
          status := DuplicateStop;
        }
      case InvalidGroup =>
        malformedCount := malformedCount + 1;
        if malformedCount >= lim.maxMalformed {
          status := MalformedResponse;
        }
    }

    /** The counters, the board and the status from a call's outcome to the flush. */
    method HandleOutcome(p: Puzzle, lim: Limits, o: Outcome, retryAfterSeconds: Option<int>, fallbackSeconds: int)
      returns (rows: seq<ProposalRow>, failed: Option<ErrorCode>, waitMs: Option<int>)
      modifies this
      ensures Batch(State(), rows) == Iterate(p, lim, old(State()), o)
      ensures failed == if o.CallError? then Some(EffectiveCode(lim, old(State()), o.code, o.now)) else None
      ensures waitMs.Some? <==> failed == Some(RateLimited)
    {
      rows, failed, waitMs := [], None, None;
      match o
      case CallError(code, now) =>
        var effective;
        effective, waitMs := ClassifyFailedCall(lim, code, now, retryAfterSeconds, fallbackSeconds);
        failed := Some(effective);
      case Reply(_, groupsFound, proposalWords, _, _, _) =>
        consecutiveModelErrors := 0;
        rateLimitStreak := 0;
        rateLimitStreakStartedAt := None;
        if !groupsFound {
          malformedCount := malformedCount + 1;
          if malformedCount >= lim.maxMalformed {
            status := MalformedResponse;
          }
        } else {
          var guessCountBefore := guessCount;
          var entries := BuildProposalEntries(proposalWords);
          rows := EvaluateProposals(p, lim, entries);
          if status == Running && guessCount == guessCountBefore {
            malformedCount := malformedCount + 1;
            if malformedCount >= lim.maxMalformed {
              status := MalformedResponse;
            }
          }
        }
    }
  }
}
