/**
 The detector of resume-corrupted runs and its repair: findResumeCorruption
 (backend/src/scripts/trim-resume-corrupted-runs.ts), against every log the runner
 can write.
 */
module RunLog {
  import opened Options
  import opened Puzzles
  import opened LlmLoop
  import opened LlmHistory

  // ----- sorting rows -----

  predicate PromptLeq(a: PromptRow, b: PromptRow) {
    a.promptNumber < b.promptNumber || (a.promptNumber == b.promptNumber && a.attemptNumber <= b.attemptNumber)
  }

  function InsertPrompt(x: PromptRow, s: seq<PromptRow>): seq<PromptRow> {
    if s == [] || PromptLeq(x, s[0]) then [x] + s else [s[0]] + InsertPrompt(x, s[1..])
  }

  /** Stable sort by prompt number, then attempt number. */
  function OrderPrompts(s: seq<PromptRow>): seq<PromptRow> {
    if s == [] then [] else InsertPrompt(s[0], OrderPrompts(s[1..]))
  }

  ghost predicate Ordered(s: seq<PromptRow>) {
    forall i, j :: 0 <= i < j < |s| ==>
                     || s[i].promptNumber < s[j].promptNumber
                     || (s[i].promptNumber == s[j].promptNumber && s[i].attemptNumber <= s[j].attemptNumber)
  }

  function InsertGuess(x: GuessRow, s: seq<GuessRow>): seq<GuessRow> {
    if s == [] || x.sequenceNumber <= s[0].sequenceNumber then [x] + s else [s[0]] + InsertGuess(x, s[1..])
  }

  /** Stable sort by sequence number. */
  function OrderGuesses(s: seq<GuessRow>): seq<GuessRow> {
    if s == [] then [] else InsertGuess(s[0], OrderGuesses(s[1..]))
  }

  /** The guesses a row's 'used' proposals became, by sequence number. */
  function UsedSteps(row: PromptRow): seq<GuessRow> {
    OrderGuesses(Used(row.proposals))
  }

  lemma {:induction false} OrderedStays(s: seq<PromptRow>)
    requires Ordered(s)
    ensures OrderPrompts(s) == s
  {
    if s != [] {
      OrderedStays(s[1..]);
      if |s| > 1 {
        assert PromptLeq(s[0], s[1]);
      }
      assert s == [s[0]] + s[1..];
    }
  }

  lemma {:induction false} NumberedStays(s: seq<GuessRow>, n: nat)
    requires NumberedFrom(s, n)
    ensures OrderGuesses(s) == s
  {
    if s != [] {
      NumberedStays(s[1..], n + 1);
      if |s| > 1 {
        assert s[0].sequenceNumber < s[1].sequenceNumber;
      }
      assert s == [s[0]] + s[1..];
    }
  }

  // ----- the detector -----

  datatype Corruption = Corruption(badPromptNumber: nat, availableWordsBeforeCorruption: seq<Word>,
                                   taintedGuesses: seq<GuessRow>)

  function StepsLast(last: Option<FailedGuess>, steps: seq<GuessRow>): Option<FailedGuess>
    decreases |steps|
  {
    if steps == [] then last
    else StepsLast(if steps[0].result == Success then None
                   else Some(FailedGuess(steps[0].words, ResultText(steps[0].result))), steps[1..])
  }

  function Tainted(rows: seq<PromptRow>): seq<GuessRow> {
    if rows == [] then [] else Used(rows[0].proposals) + Tainted(rows[1..])
  }

  /** The scan from a row on, given the replayed board and feedback; the very first row is never flagged. */
  function Scan(available: seq<Word>, last: Option<FailedGuess>, rows: seq<PromptRow>, first: bool): Option<Corruption>
    decreases |rows|
  {
    if rows == [] then None
    else if !first && rows[0].promptType != TypeFor(last)
    then Some(Corruption(rows[0].promptNumber, available, Tainted(rows)))
    else if rows[0].status == CallErrorStatus then Scan(available, last, rows[1..], false)
    else
      var steps := UsedSteps(rows[0]);
      Scan(Board(available, steps), StepsLast(last, steps), rows[1..], false)
  }

  function FindCorruption(words: seq<Word>, rows: seq<PromptRow>): Option<Corruption> {
    Scan(words, None, OrderPrompts(rows), true)
  }

  method FindResumeCorruption(originalWords: seq<Word>, solvePrompts: seq<PromptRow>) returns (r: Option<Corruption>)
    ensures r == FindCorruption(originalWords, solvePrompts)
  {
    var orderedPrompts := OrderPrompts(solvePrompts);
    var availableWords := originalWords;
    var lastFailedGuess: Option<FailedGuess> := None;
    var taintedGuesses: seq<GuessRow> := [];
    var bad: Option<(nat, seq<Word>)> := None;
    var i := 0;
    while i < |orderedPrompts|
      invariant i <= |orderedPrompts|
      invariant bad.None? ==> taintedGuesses == []
      invariant bad.None? ==> FindCorruption(originalWords, solvePrompts)
                              == Scan(availableWords, lastFailedGuess, orderedPrompts[i..], i == 0)
      invariant bad.Some? ==> FindCorruption(originalWords, solvePrompts)
                              == Some(Corruption(bad.value.0, bad.value.1,
                                                 taintedGuesses + Tainted(orderedPrompts[i..])))
      decreases |orderedPrompts| - i
    {
      var prompt := orderedPrompts[i];
      ghost var rest := orderedPrompts[i..];
      assert rest[0] == prompt && rest[1..] == orderedPrompts[i + 1..];
      assert Tainted(rest) == Used(prompt.proposals) + Tainted(rest[1..]);
      if bad.None? {
        var expectedType := if lastFailedGuess.None? then InitialSolve else Retry;
        if i > 0 && prompt.promptType != expectedType {
          bad := Some((prompt.promptNumber, availableWords));
        }
      }
      i := i + 1;
      if bad.Some? {
        assert (taintedGuesses + Used(prompt.proposals)) + Tainted(orderedPrompts[i..])
               == taintedGuesses + (Used(prompt.proposals) + Tainted(orderedPrompts[i..]));
        assert taintedGuesses == [] ==> taintedGuesses + Tainted(rest) == Tainted(rest);
        taintedGuesses := taintedGuesses + Used(prompt.proposals);
        continue;
      }
      if prompt.status == CallErrorStatus {
        continue;
      }
      availableWords, lastFailedGuess := ReplaySteps(availableWords, lastFailedGuess, UsedSteps(prompt));
    }
    assert orderedPrompts[i..] == [];
    if bad.None? {
      return None;
    }
    assert taintedGuesses + [] == taintedGuesses;
    return Some(Corruption(bad.value.0, bad.value.1, taintedGuesses));
  }

  method ReplaySteps(available: seq<Word>, last: Option<FailedGuess>, steps: seq<GuessRow>)
    returns (availableWords: seq<Word>, lastFailedGuess: Option<FailedGuess>)
    ensures availableWords == Board(available, steps) && lastFailedGuess == StepsLast(last, steps)
  {
    availableWords, lastFailedGuess := available, last;
    for k := 0 to |steps|
      invariant Board(available, steps) == Board(availableWords, steps[k..])
      invariant StepsLast(last, steps) == StepsLast(lastFailedGuess, steps[k..])
    {
      var step := steps[k];
      assert steps[k..][1..] == steps[k + 1..];
      if step.result == Success {
        availableWords := Without(availableWords, step.words);
        lastFailedGuess := None;
      } else {
        var resultStr := if step.result == OffByOne then "one away" else "incorrect";
        lastFailedGuess := Some(FailedGuess(step.words, resultStr));
      }
    }
    assert steps[|steps|..] == [];
  }

  lemma {:induction false} StepsLastIsRecall(m: Memory, steps: seq<GuessRow>)
    ensures StepsLast(m.lastFailedGuess, steps) == Recall(m, steps).lastFailedGuess
    decreases |steps|
  {
    if steps != [] {
      StepsLastIsRecall(RecallOne(m, steps[0]), steps[1..]);
    }
  }

  lemma {:induction false} ScanPrefix(available: seq<Word>, last: Option<FailedGuess>, a: seq<PromptRow>,
                                      b: seq<PromptRow>, first: bool)
    requires Scan(available, last, a + b, first).None?
    ensures Scan(available, last, a, first).None?
    decreases |a|
  {
    if a != [] {
      assert (a + b)[1..] == a[1..] + b && (a + b)[0] == a[0];
      if a[0].status == CallErrorStatus {
        ScanPrefix(available, last, a[1..], b, false);
      } else {
        var steps := UsedSteps(a[0]);
        ScanPrefix(Board(available, steps), StepsLast(last, steps), a[1..], b, false);
      }
    }
  }

  /** A row typed by the state it was sent in passes the scan, which moves on by its guesses. */
  lemma ScanRow(words: seq<Word>, guesses: seq<GuessRow>, row: PromptRow, rest: seq<PromptRow>, first: bool)
    requires row.promptType == TypeFor(Recall(NOTHING, guesses).lastFailedGuess)
    requires row.status == CallErrorStatus ==> Used(row.proposals) == []
    requires NumberedFrom(Used(row.proposals), |guesses|)
    ensures var all := guesses + Used(row.proposals);
            Scan(Board(words, guesses), Recall(NOTHING, guesses).lastFailedGuess, [row] + rest, first)
            == Scan(Board(words, all), Recall(NOTHING, all).lastFailedGuess, rest, false)
  {
    var steps := Used(row.proposals);
    assert ([row] + rest)[1..] == rest;
    NumberedStays(steps, |guesses|);
    BoardAppend(words, guesses, steps);
    RecallAppend(NOTHING, guesses, steps);
    StepsLastIsRecall(Recall(NOTHING, guesses), steps);
  }

  /** Scanning well-logged rows and then more is scanning the rest from the replayed state. */
  lemma {:induction false} ScanLogged(words: seq<Word>, prompts: seq<PromptRow>, rest: seq<PromptRow>)
    requires WellLogged(prompts)
    ensures Scan(words, None, prompts + rest, true)
            == Scan(Board(words, UsedIn(prompts)), Recall(NOTHING, UsedIn(prompts)).lastFailedGuess,
                    rest, prompts == [])
    decreases |prompts|
  {
    if prompts == [] {
      assert prompts + rest == rest;
    } else {
      var front, row := prompts[..|prompts| - 1], prompts[|prompts| - 1];
      assert prompts + rest == front + ([row] + rest);
      assert UsedIn(prompts) == UsedIn(front) + Used(row.proposals);
      ScanRow(words, UsedIn(front), row, rest, front == []);
      ScanLogged(words, front, [row] + rest);
    }
  }

  lemma {:induction false} LoggedIsOrdered(prompts: seq<PromptRow>)
    requires WellLogged(prompts)
    ensures Ordered(prompts)
    ensures forall i :: 0 <= i < |prompts| ==> prompts[i].promptNumber <= LastPromptNumber(prompts)
    decreases |prompts|
  {
    if prompts != [] {
      LoggedIsOrdered(prompts[..|prompts| - 1]);
    }
  }

  /**
   Detector soundness: on every log the runner can write, over any number of
   crashes, parks and resumes, findResumeCorruption finds nothing.
   */
  lemma DetectorIsSound(p: Puzzle, lim: Limits, build: Prompts, words: seq<Word>, events: seq<Event>)
    ensures FindCorruption(words, History(p, lim, build, NewRun(words), events).rows.prompts).None?
  {
    HistoryConsistent(p, lim, build, words, NewRun(words), events);
    var prompts := History(p, lim, build, NewRun(words), events).rows.prompts;
    LoggedIsOrdered(prompts);
    OrderedStays(prompts);
    ScanLogged(words, prompts, []);
    assert prompts + [] == prompts;
  }

  // ----- the repair -----

  /** The rows the repair keeps. */
  function Trim(rows: seq<PromptRow>, bad: nat): seq<PromptRow> {
    if rows == [] then []
    else (if rows[0].promptNumber < bad then [rows[0]] else []) + Trim(rows[1..], bad)
  }

  lemma {:induction false} InsertOrdered(x: PromptRow, s: seq<PromptRow>)
    requires Ordered(s)
    ensures Ordered(InsertPrompt(x, s))
    ensures forall y :: y in InsertPrompt(x, s) <==> y == x || y in s
  {
    if s != [] && !PromptLeq(x, s[0]) {
      InsertOrdered(x, s[1..]);
      var t := InsertPrompt(x, s[1..]);
      forall j | 0 <= j < |t| ensures PromptLeq(s[0], t[j]) {
        assert t[j] in t;
      }
    }
  }

  lemma {:induction false} InsertPermutes(x: PromptRow, s: seq<PromptRow>)
    ensures multiset(InsertPrompt(x, s)) == multiset(s) + multiset{x}
  {
    if s != [] && !PromptLeq(x, s[0]) {
      InsertPermutes(x, s[1..]);
      assert s == [s[0]] + s[1..];
    }
  }

  /** The rows in the order of their numbers, each as often as before. */
  lemma {:induction false} OrderOrders(s: seq<PromptRow>)
    ensures Ordered(OrderPrompts(s)) && multiset(OrderPrompts(s)) == multiset(s)
    ensures forall y :: y in OrderPrompts(s) <==> y in s
  {
    if s != [] {
      OrderOrders(s[1..]);
      InsertOrdered(s[0], OrderPrompts(s[1..]));
      InsertPermutes(s[0], OrderPrompts(s[1..]));
      assert s == [s[0]] + s[1..];
    }
  }

  ghost predicate InSequence(s: seq<GuessRow>) {
    forall i, j :: 0 <= i < j < |s| ==> s[i].sequenceNumber <= s[j].sequenceNumber
  }

  lemma {:induction false} InsertInSequence(x: GuessRow, s: seq<GuessRow>)
    requires InSequence(s)
    ensures InSequence(InsertGuess(x, s)) && multiset(InsertGuess(x, s)) == multiset(s) + multiset{x}
  {
    if s != [] && x.sequenceNumber > s[0].sequenceNumber {
      InsertInSequence(x, s[1..]);
      assert s == [s[0]] + s[1..];
      var t := InsertGuess(x, s[1..]);
      forall j | 0 <= j < |t| ensures s[0].sequenceNumber <= t[j].sequenceNumber {
        assert t[j] in multiset(t);
        assert t[j] == x || t[j] in s[1..];
      }
    }
  }

  /** The guesses of a row in the order they were made, each as often as before. */
  lemma {:induction false} GuessesInSequence(s: seq<GuessRow>)
    ensures InSequence(OrderGuesses(s)) && multiset(OrderGuesses(s)) == multiset(s)
  {
    if s != [] {
      GuessesInSequence(s[1..]);
      InsertInSequence(s[0], OrderGuesses(s[1..]));
      assert s == [s[0]] + s[1..];
    }
  }

  /** In ordered rows, what the repair keeps is a prefix. */
  lemma {:induction false} TrimOrdered(s: seq<PromptRow>, bad: nat) returns (k: nat)
    requires Ordered(s)
    ensures k <= |s| && Trim(s, bad) == s[..k]
    ensures forall i :: 0 <= i < k ==> s[i].promptNumber < bad
    ensures forall i :: k <= i < |s| ==> s[i].promptNumber >= bad
  {
    if s == [] {
      k := 0;
    } else {
      var r := TrimOrdered(s[1..], bad);
      if s[0].promptNumber < bad {
        k := r + 1;
        assert s[..k] == [s[0]] + s[1..][..r];
      } else {
        k := 0;
        assert s[..0] == [];
      }
    }
  }

  lemma {:induction false} TrimInsert(x: PromptRow, s: seq<PromptRow>, bad: nat)
    requires Ordered(s)
    ensures Trim(InsertPrompt(x, s), bad)
            == if x.promptNumber < bad then InsertPrompt(x, Trim(s, bad)) else Trim(s, bad)
  {
    if s == [] {
    } else if PromptLeq(x, s[0]) {
      assert ([x] + s)[1..] == s;
      if x.promptNumber < bad {
        var k := TrimOrdered(s, bad);
      }
    } else {
      TrimInsert(x, s[1..], bad);
      var t := InsertPrompt(x, s[1..]);
      assert InsertPrompt(x, s) == [s[0]] + t;
      assert ([s[0]] + t)[1..] == t;
      if s[0].promptNumber < bad {
        assert Trim(s, bad)[1..] == Trim(s[1..], bad);
      }
    }
  }

  /** Sorting and dropping the tainted rows commute. */
  lemma {:induction false} TrimCommutes(s: seq<PromptRow>, bad: nat)
    ensures OrderPrompts(Trim(s, bad)) == Trim(OrderPrompts(s), bad)
  {
    if s != [] {
      TrimCommutes(s[1..], bad);
      OrderOrders(s[1..]);
      TrimInsert(s[0], OrderPrompts(s[1..]), bad);
      if s[0].promptNumber < bad {
        assert Trim(s, bad) == [s[0]] + Trim(s[1..], bad);
        assert Trim(s, bad)[1..] == Trim(s[1..], bad);
      } else {
        assert Trim(s, bad) == Trim(s[1..], bad);
      }
    }
  }

  /** The replayed board of rows in order, as the scan computes it. */
  function Replayed(available: seq<Word>, rows: seq<PromptRow>): seq<Word>
    decreases |rows|
  {
    if rows == [] then available
    else
      var next := if rows[0].status == CallErrorStatus then available else Board(available, UsedSteps(rows[0]));
      Replayed(next, rows[1..])
  }

  /** Where the scan stops, and what it had replayed by then. */
  lemma {:induction false} ScanStops(available: seq<Word>, last: Option<FailedGuess>, rows: seq<PromptRow>, first: bool)
    returns (i: nat)
    requires Scan(available, last, rows, first).Some?
    ensures var c := Scan(available, last, rows, first).value;
            && i < |rows| && c.badPromptNumber == rows[i].promptNumber
            && c.availableWordsBeforeCorruption == Replayed(available, rows[..i])
            && c.taintedGuesses == Tainted(rows[i..])
    ensures Scan(available, last, rows[..i], first).None?
    decreases |rows|
  {
    if !first && rows[0].promptType != TypeFor(last) {
      i := 0;
      assert rows[..0] == [] && rows[0..] == rows;
    } else {
      var k;
      if rows[0].status == CallErrorStatus {
        k := ScanStops(available, last, rows[1..], false);
      } else {
        k := ScanStops(Board(available, UsedSteps(rows[0])), StepsLast(last, UsedSteps(rows[0])), rows[1..], false);
      }
      i := k + 1;
      assert rows[..i][1..] == rows[1..][..k] && rows[..i][0] == rows[0];
      assert rows[i..] == rows[1..][k..];
    }
  }

  lemma {:induction false} ReplayedErrors(available: seq<Word>, rows: seq<PromptRow>)
    requires forall i :: 0 <= i < |rows| ==> rows[i].status == CallErrorStatus
    ensures Replayed(available, rows) == available
  {
    if rows != [] {
      ReplayedErrors(available, rows[1..]);
    }
  }

  lemma {:induction false} ReplayedAppend(available: seq<Word>, a: seq<PromptRow>, b: seq<PromptRow>)
    ensures Replayed(available, a + b) == Replayed(Replayed(available, a), b)
    decreases |a|
  {
    if a == [] {
      assert a + b == b;
    } else {
      assert (a + b)[1..] == a[1..] + b;
      var next := if a[0].status == CallErrorStatus then available else Board(available, UsedSteps(a[0]));
      ReplayedAppend(next, a[1..], b);
    }
  }

  /** Rows that share a prompt number with a later row are failed calls. */
  ghost predicate OneAnswerPerNumber(rows: seq<PromptRow>) {
    forall i, j :: 0 <= i < j < |rows| && rows[i].promptNumber == rows[j].promptNumber
                   ==> rows[i].status == CallErrorStatus
  }

  lemma KeptBoard(words: seq<Word>, s: seq<PromptRow>, k: nat, i: nat)
    requires k <= i < |s| && Ordered(s) && OneAnswerPerNumber(s)
    requires forall j :: k <= j < |s| ==> s[j].promptNumber >= s[i].promptNumber
    ensures Replayed(words, s[..i]) == Replayed(words, s[..k])
  {
    forall j | 0 <= j < |s[k..i]| ensures s[k..i][j].status == CallErrorStatus {
      assert PromptLeq(s[k + j], s[i]);
    }
    assert s[..i] == s[..k] + s[k..i];
    ReplayedAppend(words, s[..k], s[k..i]);
    ReplayedErrors(Replayed(words, s[..k]), s[k..i]);
  }

  /** Where the flagged row sits among the ordered rows, and how many of them the repair keeps. */
  lemma FlaggedRow(words: seq<Word>, rows: seq<PromptRow>) returns (k: nat, i: nat)
    requires FindCorruption(words, rows).Some?
    ensures var c, s := FindCorruption(words, rows).value, OrderPrompts(rows);
            && Ordered(s) && k <= i < |s| && s[i] in rows && s[i].promptNumber == c.badPromptNumber
            && OrderPrompts(Trim(rows, c.badPromptNumber)) == s[..k]
            && (forall j :: k <= j < |s| ==> s[j].promptNumber >= c.badPromptNumber)
            && c.availableWordsBeforeCorruption == Replayed(words, s[..i])
            && c.taintedGuesses == Tainted(s[i..])
    ensures Scan(words, None, OrderPrompts(rows)[..i], true).None?
  {
    var bad := FindCorruption(words, rows).value.badPromptNumber;
    OrderOrders(rows);
    TrimCommutes(rows, bad);
    k := TrimOrdered(OrderPrompts(rows), bad);
    i := ScanStops(words, None, OrderPrompts(rows), true);
    assert OrderPrompts(rows)[i] in OrderPrompts(rows);
  }

  /** The repair, on any rows at all: something is trimmed, and the detector then finds nothing more. */
  lemma RepairIsIdempotent(words: seq<Word>, rows: seq<PromptRow>)
    requires FindCorruption(words, rows).Some?
    ensures var kept := Trim(rows, FindCorruption(words, rows).value.badPromptNumber);
            |kept| < |rows| && FindCorruption(words, kept).None?
  {
    var k, i := FlaggedRow(words, rows);
    var s := OrderPrompts(rows);
    TrimShrinks(rows, s[i].promptNumber, s[i]);
    assert s[..i] == s[..k] + s[k..i];
    ScanPrefix(words, None, s[..k], s[k..i], true);
  }

  /**
   When a prompt number is answered at most once, the board the repair writes back
   is the original words replayed through exactly the rows it kept.
   */
  lemma RepairRestoresBoard(words: seq<Word>, rows: seq<PromptRow>)
    requires FindCorruption(words, rows).Some? && OneAnswerPerNumber(OrderPrompts(rows))
    ensures var c := FindCorruption(words, rows).value;
            c.availableWordsBeforeCorruption == Replayed(words, OrderPrompts(Trim(rows, c.badPromptNumber)))
  {
    var k, i := FlaggedRow(words, rows);
    KeptBoard(words, OrderPrompts(rows), k, i);
  }

  lemma {:induction false} TrimShrinks(rows: seq<PromptRow>, bad: nat, row: PromptRow)
    requires row in rows && row.promptNumber >= bad
    ensures |Trim(rows, bad)| < |rows|
  {
    if rows[0].promptNumber < bad {
      TrimShrinks(rows[1..], bad, row);
    } else {
      TrimAtMost(rows[1..], bad);
    }
  }

  lemma {:induction false} TrimAtMost(rows: seq<PromptRow>, bad: nat)
    ensures |Trim(rows, bad)| <= |rows|
  {
    if rows != [] {
      TrimAtMost(rows[1..], bad);
    }
  }
}
