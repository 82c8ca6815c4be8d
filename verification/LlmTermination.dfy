/**
 Why the LLM run loop stops (llm-strategy-runner.service.ts): every call that is
 not a rate-limit wait uses up part of a finite allowance.
 */
module LlmTermination {
  import opened Options
  import opened Puzzles
  import opened LlmLoop

  function Left(limit: nat, used: nat): nat {
    if used < limit then limit - used else 0
  }

  /** Failures of each kind still allowed, plus the groups still unsolved. */
  function Allowance(lim: Limits, s: Loop): nat {
    Left(lim.maxFailedGuesses, s.failedGuessCount) + Left(lim.maxMalformed, s.malformedCount)
    + Left(lim.maxDuplicates, s.duplicateCount) + |s.availableWords| / GROUP_SIZE
  }

  /** The allowance, then consecutive model errors still allowed, as one lexicographic number. */
  function Effort(lim: Limits, s: Loop): nat {
    Allowance(lim, s) * (lim.maxModelErrors + 1) + Left(lim.maxModelErrors, s.consecutiveModelErrors)
  }

  predicate IsWait(o: Outcome) {
    o.CallError? && o.code == RateLimited
  }

  lemma Lexicographic(a: nat, b: nat, i: nat, j: nat, top: nat)
    requires a < b && i <= top
    ensures a * (top + 1) + i < b * (top + 1) + j
  {
    var gap := b - a - 1;
    assert b * (top + 1) == (a + 1 + gap) * (top + 1) == a * (top + 1) + (top + 1) + gap * (top + 1);
    assert gap * (top + 1) >= 0;
  }

  lemma {:induction false} EntriesAreGroups(proposalWords: seq<Option<seq<Word>>>)
    ensures forall e :: e in Entries(proposalWords) ==> |e| == GROUP_SIZE
  {
    if proposalWords != [] {
      EntriesAreGroups(proposalWords[1..]);
    }
  }

  /** One submitted guess either stops the run or uses up allowance. */
  lemma AfterSubmitSpends(p: Puzzle, lim: Limits, s: Loop, guess: seq<Word>)
    requires p.WellFormed() && WholeGroups(p, s.availableWords) && s.status == Running
    requires |guess| == GROUP_SIZE && AllIn(guess, s.availableWords)
    ensures var t := AfterSubmit(lim, s, guess, Verdict(p, s.priorGuesses, guess));
            && WholeGroups(p, t.availableWords)
            && (t.status == Running ==> Allowance(lim, t) < Allowance(lim, s))
  {
    if Verdict(p, s.priorGuesses, guess) == Success {
      SuccessRemovesGroup(p, s.availableWords, guess);
    }
  }

  /** A batch either leaves the state as it was, or stops the run, or uses up allowance. */
  lemma {:induction false} SubmitSpends(p: Puzzle, lim: Limits, s: Loop, proposals: seq<seq<Word>>)
    requires p.WellFormed() && WholeGroups(p, s.availableWords) && s.status == Running
    requires forall e :: e in proposals ==> |e| == GROUP_SIZE
    ensures var t := Submit(p, lim, s, proposals).loop;
            && WholeGroups(p, t.availableWords)
            && t.guessCount >= s.guessCount
            && (t.guessCount == s.guessCount ==> t == s)
            && (t.status == Running ==> t == s || Allowance(lim, t) < Allowance(lim, s))
            && t.consecutiveModelErrors == s.consecutiveModelErrors
    decreases |proposals|
  {
    if proposals != [] {
      match Canonical(p, s.availableWords, proposals[0])
      case None =>
        SubmitSpends(p, lim, s, proposals[1..]);
      case Some(guess) =>
        AfterSubmitSpends(p, lim, s, guess);
        var r := Verdict(p, s.priorGuesses, guess);
        var t := AfterSubmit(lim, s, guess, r);
        if r == Success && t.status != Completed {
          SubmitSpends(p, lim, t, proposals[1..]);
        }
    }
  }

  /** An error other than a wait either stops the run or uses up allowance or model errors. */
  lemma ClassifySpends(lim: Limits, s: Loop, code: ErrorCode, now: int)
    requires s.status == Running
    ensures var t := Classify(lim, s, code, now);
            && t.availableWords == s.availableWords
            && (t.status == Running && code != RateLimited ==>
                  || Allowance(lim, t) < Allowance(lim, s)
                  || (code == ModelError && Allowance(lim, t) == Allowance(lim, s)
                      && Left(lim.maxModelErrors, t.consecutiveModelErrors)
                         < Left(lim.maxModelErrors, s.consecutiveModelErrors)))
            && (code == RateLimited ==> Allowance(lim, t) == Allowance(lim, s)
                                        && t.consecutiveModelErrors == s.consecutiveModelErrors)
  {
  }

  /** Every answer either stops the run or uses up allowance. */
  lemma ReplySpends(p: Puzzle, lim: Limits, s: Loop, o: Outcome)
    requires p.WellFormed() && WholeGroups(p, s.availableWords) && s.status == Running && o.Reply?
    ensures var t := Iterate(p, lim, s, o).loop;
            && WholeGroups(p, t.availableWords)
            && (t.status == Running ==> Allowance(lim, t) < Allowance(lim, s))
  {
    EntriesAreGroups(o.proposalWords);
    var s1 := s.(consecutiveModelErrors := 0, rateLimitStreak := 0, rateLimitStreakStartedAt := None);
    assert Allowance(lim, s1) == Allowance(lim, s);
    SubmitSpends(p, lim, s1, Entries(o.proposalWords));
  }

  /** Lexicographically less is left: of the allowance, or of the model errors at the same allowance. */
  ghost predicate Uses(lim: Limits, s: Loop, t: Loop) {
    || Allowance(lim, t) < Allowance(lim, s)
    || (Allowance(lim, t) == Allowance(lim, s)
        && Left(lim.maxModelErrors, t.consecutiveModelErrors) < Left(lim.maxModelErrors, s.consecutiveModelErrors))
  }

  lemma UsesEffort(lim: Limits, s: Loop, t: Loop)
    requires Uses(lim, s, t)
    ensures Effort(lim, t) < Effort(lim, s)
  {
    if Allowance(lim, t) < Allowance(lim, s) {
      Lexicographic(Allowance(lim, t), Allowance(lim, s), Left(lim.maxModelErrors, t.consecutiveModelErrors),
                    Left(lim.maxModelErrors, s.consecutiveModelErrors), lim.maxModelErrors);
    }
  }

  /** Every iteration that goes on either is a rate-limit wait, which uses nothing, or uses something up. */
  lemma IterateSpends(p: Puzzle, lim: Limits, s: Loop, o: Outcome)
    requires p.WellFormed() && WholeGroups(p, s.availableWords) && s.status == Running
    ensures var t := Iterate(p, lim, s, o).loop;
            && WholeGroups(p, t.availableWords)
            && (t.status == Running && !IsWait(o) ==> Uses(lim, s, t))
            && (IsWait(o) ==> Allowance(lim, t) == Allowance(lim, s)
                              && t.consecutiveModelErrors == s.consecutiveModelErrors)
  {
    match o
    case CallError(code, now) => ClassifySpends(lim, s, code, now);
    case Reply(_, _, _, _, _, _) => ReplySpends(p, lim, s, o);
  }

  // ----- any sequence of outcomes -----

  ghost function AfterCalls(p: Puzzle, lim: Limits, s: Loop, calls: seq<Outcome>): Loop
    decreases |calls|
  {
    if calls == [] || s.status != Running then s else AfterCalls(p, lim, Iterate(p, lim, s, calls[0]).loop, calls[1..])
  }

  /** The calls other than rate-limit waits made before the run stops. */
  ghost function WorkCalls(p: Puzzle, lim: Limits, s: Loop, calls: seq<Outcome>): nat
    decreases |calls|
  {
    if calls == [] || s.status != Running then 0
    else (if IsWait(calls[0]) then 0 else 1) + WorkCalls(p, lim, Iterate(p, lim, s, calls[0]).loop, calls[1..])
  }

  /** Whatever the model and the provider answer, the calls that are not waits are bounded up front. */
  lemma {:induction false} WorkIsBounded(p: Puzzle, lim: Limits, s: Loop, calls: seq<Outcome>)
    requires p.WellFormed() && WholeGroups(p, s.availableWords)
    ensures WorkCalls(p, lim, s, calls) <= Effort(lim, s) + 1
    ensures WorkCalls(p, lim, s, calls) == Effort(lim, s) + 1 ==> AfterCalls(p, lim, s, calls).status != Running
    decreases |calls|
  {
    if calls != [] && s.status == Running {
      IterateSpends(p, lim, s, calls[0]);
      var t := Iterate(p, lim, s, calls[0]).loop;
      if t.status == Running && !IsWait(calls[0]) {
        UsesEffort(lim, s, t);
      }
      WorkIsBounded(p, lim, t, calls[1..]);
    }
  }

  /** With a park, waits are bounded too: effort first, then the rest of the streak. */
  function Total(lim: Limits, s: Loop): nat
    requires lim.park.Some?
  {
    Effort(lim, s) * (lim.park.value.attempts + 1) + Left(lim.park.value.attempts, s.rateLimitStreak)
  }

  lemma IterateSpendsTotal(p: Puzzle, lim: Limits, s: Loop, o: Outcome)
    requires lim.park.Some?
    requires p.WellFormed() && WholeGroups(p, s.availableWords) && s.status == Running
    ensures var t := Iterate(p, lim, s, o).loop;
            && WholeGroups(p, t.availableWords)
            && (t.status == Running ==> Total(lim, t) < Total(lim, s))
  {
    IterateSpends(p, lim, s, o);
    var t := Iterate(p, lim, s, o).loop;
    var k := lim.park.value.attempts;
    if t.status == Running && !IsWait(o) {
      UsesEffort(lim, s, t);
      Lexicographic(Effort(lim, t), Effort(lim, s), Left(k, t.rateLimitStreak), Left(k, s.rateLimitStreak), k);
    }
  }

  /**
   The loop of runLlmStrategy against an arbitrary provider: with a park
   configured it stops, after at most Total + 1 calls, in a non-running status.
   */
  method RunUntilStopped(p: Puzzle, lim: Limits, run: LlmRun, provider: nat -> Outcome)
    returns (calls: nat, ghost made: seq<Outcome>)
    requires lim.park.Some?
    requires p.WellFormed() && WholeGroups(p, run.availableWords) && run.status == Running
    modifies run
    ensures run.status != Running && WholeGroups(p, run.availableWords)
    ensures calls <= Total(lim, old(run.State())) + 1
    ensures |made| == calls && forall i :: 0 <= i < calls ==> made[i] == provider(i)
    ensures run.State() == AfterCalls(p, lim, old(run.State()), made)
  {
    calls, made := 0, [];
    ghost var start := run.State();
    ghost var bound := Total(lim, start);
    while run.status == Running
      invariant WholeGroups(p, run.availableWords)
      invariant |made| == calls && forall i :: 0 <= i < calls ==> made[i] == provider(i)
      invariant run.State() == AfterCalls(p, lim, start, made)
      invariant run.status == Running ==> calls + Total(lim, run.State()) <= bound
      invariant calls <= bound + 1
      decreases run.status == Running, Total(lim, run.State())
    {
      var o := provider(calls);
      IterateSpendsTotal(p, lim, run.State(), o);
      AfterCallsStep(p, lim, start, made, o);
      var rows, failed, waitMs := run.HandleOutcome(p, lim, o, None, 0);
      calls, made := calls + 1, made + [o];
    }
  }

  lemma {:induction false} AfterCallsStep(p: Puzzle, lim: Limits, s: Loop, calls: seq<Outcome>, o: Outcome)
    requires AfterCalls(p, lim, s, calls).status == Running
    ensures AfterCalls(p, lim, s, calls + [o]) == Iterate(p, lim, AfterCalls(p, lim, s, calls), o).loop
    decreases |calls|
  {
    if calls == [] {
      assert AfterCalls(p, lim, Iterate(p, lim, s, o).loop, []) == Iterate(p, lim, s, o).loop;
      assert ([] + [o])[1..] == [];
    } else {
      assert (calls + [o])[1..] == calls[1..] + [o];
      if s.status == Running {
        AfterCallsStep(p, lim, Iterate(p, lim, s, calls[0]).loop, calls[1..], o);
      }
    }
  }

  /** Without a park there is no such bound: a run can wait on rate limits for ever. */
  lemma {:induction false} WaitsWithoutParkAreUnbounded(p: Puzzle, lim: Limits, s: Loop, calls: seq<Outcome>)
    requires lim.park.None? && s.status == Running
    requires forall o :: o in calls ==> IsWait(o)
    ensures AfterCalls(p, lim, s, calls) == s
    decreases |calls|
  {
    if calls != [] {
      assert calls[0] in calls;
      WaitsWithoutParkAreUnbounded(p, lim, s, calls[1..]);
    }
  }
}
