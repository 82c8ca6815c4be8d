/**
 What the repair of resume-corrupted runs leaves behind
 (backend/src/scripts/trim-resume-corrupted-runs.ts): the rows it deletes, and a run
 that every later resume can go on from.
 */
module RunRepair {
  import opened Options
  import opened Puzzles
  import opened LlmLoop
  import opened LlmHistory
  import opened RunLog

  /** Rows and guesses numbered as the runner numbers them, but typed in any way at all. */
  ghost predicate WellNumbered(prompts: seq<PromptRow>) {
    prompts != [] ==>
      var front, row := prompts[..|prompts| - 1], prompts[|prompts| - 1];
      && WellNumbered(front)
      && row.promptNumber == LastPromptNumber(front) + 1 && row.attemptNumber == 1
      && (row.status == CallErrorStatus ==> Used(row.proposals) == [])
      && NumberedFrom(Used(row.proposals), |UsedIn(front)|)
  }

  ghost predicate StartsFresh(prompts: seq<PromptRow>) {
    prompts != [] ==> prompts[0].promptType == InitialSolve
  }

  lemma {:induction false} NumberedPrefix(prompts: seq<PromptRow>, k: nat)
    requires WellNumbered(prompts) && k <= |prompts|
    ensures WellNumbered(prompts[..k])
    decreases |prompts|
  {
    if k < |prompts| {
      NumberedPrefix(prompts[..|prompts| - 1], k);
      assert prompts[..|prompts| - 1][..k] == prompts[..k];
    } else {
      assert prompts[..k] == prompts;
    }
  }

  lemma {:induction false} NumberedIsOrdered(prompts: seq<PromptRow>)
    requires WellNumbered(prompts)
    ensures forall i, j :: 0 <= i < j < |prompts| ==> prompts[i].promptNumber < prompts[j].promptNumber
    ensures forall i :: 0 <= i < |prompts| ==> prompts[i].promptNumber <= LastPromptNumber(prompts)
    decreases |prompts|
  {
    if prompts != [] {
      NumberedIsOrdered(prompts[..|prompts| - 1]);
    }
  }

  lemma {:induction false} LoggedIsNumbered(prompts: seq<PromptRow>)
    requires WellLogged(prompts)
    ensures WellNumbered(prompts) && StartsFresh(prompts)
    decreases |prompts|
  {
    if prompts != [] {
      LoggedIsNumbered(prompts[..|prompts| - 1]);
    }
  }

  lemma {:induction false} CleanIsLogged(words: seq<Word>, prompts: seq<PromptRow>)
    requires WellNumbered(prompts) && StartsFresh(prompts) && Scan(words, None, prompts, true).None?
    ensures WellLogged(prompts)
    decreases |prompts|
  {
    if prompts != [] {
      var front, row := prompts[..|prompts| - 1], prompts[|prompts| - 1];
      assert prompts == front + [row];
      ScanPrefix(words, None, front, [row], true);
      CleanIsLogged(words, front);
      ScanLogged(words, front, [row]);
    }
  }

  lemma NumberedStaysPut(prompts: seq<PromptRow>)
    requires WellNumbered(prompts)
    ensures OrderPrompts(prompts) == prompts
  {
    NumberedIsOrdered(prompts);
    OrderedStays(prompts);
  }

  /**
   The detector is exact: of rows numbered as the runner numbers them, with a genuine
   first prompt, nothing is found exactly when every row is typed by the state it was
   sent in.
   */
  lemma DetectorIsExact(words: seq<Word>, prompts: seq<PromptRow>)
    requires WellNumbered(prompts) && StartsFresh(prompts)
    ensures FindCorruption(words, prompts).None? <==> WellLogged(prompts)
  {
    NumberedStaysPut(prompts);
    if FindCorruption(words, prompts).None? {
      CleanIsLogged(words, prompts);
    }
    if WellLogged(prompts) {
      assert prompts + [] == prompts;
      ScanLogged(words, prompts, []);
    }
  }

  // ----- the rows deleted -----

  /** Error rows left no guesses. */
  ghost predicate ErrorsAreGuessless(rows: seq<PromptRow>) {
    forall i :: 0 <= i < |rows| && rows[i].status == CallErrorStatus ==> Used(rows[i].proposals) == []
  }

  lemma {:induction false} TaintedSkips(rows: seq<PromptRow>, k: nat, i: nat)
    requires k <= i <= |rows| && ErrorsAreGuessless(rows)
    requires forall j :: k <= j < i ==> rows[j].status == CallErrorStatus
    ensures Tainted(rows[k..]) == Tainted(rows[i..])
    decreases i - k
  {
    if k < i {
      assert rows[k..][0] == rows[k] && rows[k..][1..] == rows[k + 1..];
      TaintedSkips(rows, k + 1, i);
      assert [] + Tainted(rows[k + 1..]) == Tainted(rows[k + 1..]);
    }
  }

  /** The guesses the repair deletes are exactly those of the rows it deletes. */
  lemma TaintedAreDropped(words: seq<Word>, rows: seq<PromptRow>) returns (dropped: seq<PromptRow>)
    requires FindCorruption(words, rows).Some?
    requires OneAnswerPerNumber(OrderPrompts(rows)) && ErrorsAreGuessless(OrderPrompts(rows))
    ensures var c := FindCorruption(words, rows).value;
            && OrderPrompts(rows) == OrderPrompts(Trim(rows, c.badPromptNumber)) + dropped
            && (forall i :: 0 <= i < |dropped| ==> dropped[i].promptNumber >= c.badPromptNumber)
            && c.taintedGuesses == Tainted(dropped)
  {
    var s := OrderPrompts(rows);
    var k, i := FlaggedRow(words, rows);
    dropped := s[k..];
    forall j | k <= j < i ensures s[j].status == CallErrorStatus {
      assert PromptLeq(s[j], s[i]);
    }
    TaintedSkips(s, k, i);
  }

  // ----- the run afterwards -----

  /** `manager.delete(Guess, ...)`: guesses are known by their numbers. */
  function Kept(guesses: seq<GuessRow>, deleted: seq<GuessRow>): seq<GuessRow> {
    if guesses == [] then []
    else (if guesses[0] in deleted then [] else [guesses[0]]) + Kept(guesses[1..], deleted)
  }

  function Repaired(words: seq<Word>, rows: Rows): Rows {
    match FindCorruption(words, rows.prompts)
    case None => rows
    case Some(c) =>
      Rows(c.availableWordsBeforeCorruption, Error, Kept(rows.guesses, c.taintedGuesses),
           Trim(rows.prompts, c.badPromptNumber))
  }

  lemma {:induction false} KeptSplit(a: seq<GuessRow>, b: seq<GuessRow>)
    requires forall i :: 0 <= i < |a| ==> a[i] !in b
    ensures Kept(a + b, b) == a
    decreases |a|
  {
    if a == [] {
      assert a + b == b;
      KeptNone(b, b);
    } else {
      assert (a + b)[1..] == a[1..] + b;
      KeptSplit(a[1..], b);
      assert [a[0]] + a[1..] == a;
    }
  }

  lemma {:induction false} KeptNone(s: seq<GuessRow>, b: seq<GuessRow>)
    requires forall i :: 0 <= i < |s| ==> s[i] in b
    ensures Kept(s, b) == []
  {
    if s != [] {
      KeptNone(s[1..], b);
    }
  }

  lemma {:induction false} UsedSplit(prompts: seq<PromptRow>, k: nat)
    requires k <= |prompts|
    ensures UsedIn(prompts) == UsedIn(prompts[..k]) + Tainted(prompts[k..])
    decreases |prompts| - k
  {
    if k == |prompts| {
      assert prompts[..k] == prompts;
      assert UsedIn(prompts) + [] == UsedIn(prompts);
    } else {
      UsedSplit(prompts, k + 1);
      assert prompts[..k + 1][..k] == prompts[..k];
      assert prompts[k..][0] == prompts[k] && prompts[k..][1..] == prompts[k + 1..];
      assert UsedIn(prompts[..k]) + Used(prompts[k].proposals) + Tainted(prompts[k + 1..])
             == UsedIn(prompts[..k]) + (Used(prompts[k].proposals) + Tainted(prompts[k + 1..]));
    }
  }

  lemma {:induction false} UsedIsNumbered(prompts: seq<PromptRow>)
    requires WellNumbered(prompts)
    ensures NumberedFrom(UsedIn(prompts), 0)
    decreases |prompts|
  {
    if prompts != [] {
      UsedIsNumbered(prompts[..|prompts| - 1]);
    }
  }

  lemma {:induction false} ReplayedIsBoard(words: seq<Word>, prompts: seq<PromptRow>)
    requires WellNumbered(prompts)
    ensures Replayed(words, prompts) == Board(words, UsedIn(prompts))
    decreases |prompts|
  {
    if prompts != [] {
      var front, row := prompts[..|prompts| - 1], prompts[|prompts| - 1];
      var steps := Used(row.proposals);
      assert prompts == front + [row];
      ReplayedIsBoard(words, front);
      ReplayedAppend(words, front, [row]);
      NumberedStays(steps, |UsedIn(front)|);
      BoardAppend(words, UsedIn(front), steps);
      assert Replayed(Board(words, UsedIn(front)), [row]) == Board(Board(words, UsedIn(front)), steps);
    }
  }

  /** Of rows with different numbers the repair keeps exactly those before the flagged one. */
  lemma RepairKeeps(words: seq<Word>, prompts: seq<PromptRow>) returns (k: nat)
    requires FindCorruption(words, prompts).Some? && OrderPrompts(prompts) == prompts
    requires forall i, j :: 0 <= i < j < |prompts| ==> prompts[i].promptNumber < prompts[j].promptNumber
    ensures var c := FindCorruption(words, prompts).value;
            && k < |prompts| && Trim(prompts, c.badPromptNumber) == prompts[..k]
            && c.availableWordsBeforeCorruption == Replayed(words, prompts[..k])
            && c.taintedGuesses == Tainted(prompts[k..])
    ensures Scan(words, None, prompts[..k], true).None?
  {
    k := ScanStops(words, None, prompts, true);
    TrimStrict(prompts, k);
  }

  lemma TrimStrict(prompts: seq<PromptRow>, k: nat)
    requires k < |prompts| && Ordered(prompts)
    requires forall i, j :: 0 <= i < j < |prompts| ==> prompts[i].promptNumber < prompts[j].promptNumber
    ensures Trim(prompts, prompts[k].promptNumber) == prompts[..k]
  {
    var n := TrimOrdered(prompts, prompts[k].promptNumber);
    assert n <= k;
    assert prompts[n].promptNumber >= prompts[k].promptNumber;
  }

  /**
   The repair gives back a run as the runner itself would have left it: its stored
   guesses, rows and board agree again.
   */
  lemma RepairIsConsistent(words: seq<Word>, rows: Rows)
    requires WellNumbered(rows.prompts) && StartsFresh(rows.prompts) && rows.guesses == UsedIn(rows.prompts)
    requires FindCorruption(words, rows.prompts).Some?
    ensures Consistent(words, World(Repaired(words, rows), None))
  {
    NumberedStaysPut(rows.prompts);
    NumberedIsOrdered(rows.prompts);
    var k := RepairKeeps(words, rows.prompts);
    KeptIsLogged(words, rows.prompts, k);
    KeptGuesses(rows.prompts, k);
  }

  lemma KeptIsLogged(words: seq<Word>, prompts: seq<PromptRow>, k: nat)
    requires WellNumbered(prompts) && StartsFresh(prompts) && k <= |prompts|
    requires Scan(words, None, prompts[..k], true).None?
    ensures var kept := prompts[..k];
            WellLogged(kept) && NumberedFrom(UsedIn(kept), 0) && Replayed(words, kept) == Board(words, UsedIn(kept))
  {
    NumberedPrefix(prompts, k);
    CleanIsLogged(words, prompts[..k]);
    ReplayedIsBoard(words, prompts[..k]);
    UsedIsNumbered(prompts[..k]);
  }

  lemma NumberedApart(a: seq<GuessRow>, b: seq<GuessRow>)
    requires NumberedFrom(a + b, 0)
    ensures forall i :: 0 <= i < |a| ==> a[i] !in b
  {
    forall i, j | 0 <= i < |a| && 0 <= j < |b| ensures a[i] != b[j] {
      assert (a + b)[i] == a[i] && (a + b)[|a| + j] == b[j];
    }
  }

  lemma KeptGuesses(prompts: seq<PromptRow>, k: nat)
    requires WellNumbered(prompts) && k <= |prompts|
    ensures Kept(UsedIn(prompts), Tainted(prompts[k..])) == UsedIn(prompts[..k])
  {
    UsedSplit(prompts, k);
    UsedIsNumbered(prompts);
    var a, b := UsedIn(prompts[..k]), Tainted(prompts[k..]);
    NumberedApart(a, b);
    KeptSplit(a, b);
  }

  /**
   So whatever happens to a repaired run - retried, resumed, parked, crashed - its rows
   and its workers agree as if it had never been corrupted, and nothing is found again.
   */
  lemma RepairedRunContinues(p: Puzzle, lim: Limits, build: Prompts, words: seq<Word>, rows: Rows, events: seq<Event>)
    requires WellNumbered(rows.prompts) && StartsFresh(rows.prompts) && rows.guesses == UsedIn(rows.prompts)
    requires FindCorruption(words, rows.prompts).Some?
    ensures var w := History(p, lim, build, World(Repaired(words, rows), None), events);
            Consistent(words, w) && FindCorruption(words, w.rows.prompts).None?
  {
    RepairIsConsistent(words, rows);
    HistoryConsistent(p, lim, build, words, World(Repaired(words, rows), None), events);
    var prompts := History(p, lim, build, World(Repaired(words, rows), None), events).rows.prompts;
    LoggedIsNumbered(prompts);
    DetectorIsExact(words, prompts);
  }

  lemma ErroredIsRetried(p: Puzzle, lim: Limits, build: Prompts, rows: Rows)
    requires rows.status == Error
    ensures var next := rows.(status := Running);
            History(p, lim, build, World(rows, None), [Start, ManualRetry, Start]) == World(next, Some(Rebuild(next)))
  {
    var w := World(rows, None);
    assert [Start, ManualRetry, Start][1..] == [ManualRetry, Start] && [ManualRetry, Start][1..] == [Start];
    assert History(p, lim, build, w, [Start, ManualRetry, Start]) == History(p, lim, build, w, [ManualRetry, Start]);
  }

  /** It is left errored: no worker takes it up before it is retried by hand, and then one does, from what was kept. */
  lemma RepairedIsRetried(p: Puzzle, lim: Limits, build: Prompts, words: seq<Word>, rows: Rows)
    requires FindCorruption(words, rows.prompts).Some?
    ensures var next := Repaired(words, rows).(status := Running);
            History(p, lim, build, World(Repaired(words, rows), None), [Start, ManualRetry, Start])
            == World(next, Some(Rebuild(next)))
  {
    ErroredIsRetried(p, lim, build, Repaired(words, rows));
  }
}
