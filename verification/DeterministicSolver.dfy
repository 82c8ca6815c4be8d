/**
 The four ordered strategies: runDeterministicStrategy
 (backend/src/modules/strategy/deterministic-solver.service.ts) over the batched
 store of strategy-run-store.service.ts.
 */
module DeterministicSolver {
  import opened Combinatorics
  import opened Puzzles

  const BATCH_SIZE := 50

  datatype Status = Running | Completed | Failed

  datatype Run = Run(availableWords: seq<Word>, currentCombination: seq<int>, status: Status)

  datatype Guess = Guess(words: seq<Word>, result: GuessResult, sequenceNumber: nat)

  /** A run together with the guesses it has made. */
  datatype Progress = Progress(run: Run, guesses: seq<Guess>)

  function Fresh(words: seq<Word>): Progress {
    Progress(Run(words, FirstCombination(GROUP_SIZE), Running), [])
  }

  /** The run row after guessing at its current combination. */
  function AfterGuess(run: Run, words: seq<Word>, result: GuessResult): Run {
    if result == Success then
      var rest := Without(run.availableWords, words);
      Run(rest, FirstCombination(GROUP_SIZE), if rest == [] then Completed else run.status)
    else
      match Next(run.currentCombination, |run.availableWords|)
      case None => run.(status := Failed)
      case Some(c) => run.(currentCombination := c)
  }

  predicate InPool(run: Run) {
    forall i :: 0 <= i < |run.currentCombination| ==> 0 <= run.currentCombination[i] < |run.availableWords|
  }

  /** One pass of the solver's loop. */
  function Step(p: Puzzle, s: Progress): Progress
    requires InPool(s.run)
  {
    var words := Pick(s.run.currentCombination, s.run.availableWords);
    var result := Evaluate(p, words);
    Progress(AfterGuess(s.run, words, result), s.guesses + [Guess(words, result, |s.guesses| + 1)])
  }

  // ----- the search never fails -----

  ghost predicate Enumerating(run: Run) {
    && |run.currentCombination| == GROUP_SIZE && |run.availableWords| >= GROUP_SIZE
    && IsCombination(run.currentCombination, |run.availableWords|)
  }

  /**
   What every pass keeps: the pool is whole groups, the combination is a real
   one, and everything that comes before it in the enumeration has been ruled out.
   */
  ghost predicate Searching(p: Puzzle, run: Run) {
    && WholeGroups(p, run.availableWords)
    && |run.currentCombination| == GROUP_SIZE
    && (run.status == Completed ==> run.availableWords == [])
    && run.status != Failed
    && (run.status == Running ==> Enumerating(run) && RuledOut(p, run))
  }

  ghost predicate RuledOut(p: Puzzle, run: Run)
    requires |run.currentCombination| == GROUP_SIZE
  {
    forall c {:trigger Pick(c, run.availableWords)} ::
      IsCombination(c, |run.availableWords|) && |c| == GROUP_SIZE && LexLess(c, run.currentCombination)
      ==> Evaluate(p, Pick(c, run.availableWords)) != Success
  }

  lemma FreshSearches(p: Puzzle, pool: seq<Word>)
    requires WholeGroups(p, pool) && pool != []
    ensures Searching(p, Run(pool, FirstCombination(GROUP_SIZE), Running))
  {
    forall c | IsCombination(c, |pool|) && |c| == GROUP_SIZE
      ensures !LexLess(c, FirstCombination(GROUP_SIZE))
    {
      NothingBeforeFirst(c, |pool|);
    }
  }

  /** Every pass keeps the search invariant; in particular FAILED is never reached. */
  lemma StepSearches(p: Puzzle, s: Progress) returns (t: Progress)
    requires p.WellFormed() && Searching(p, s.run) && s.run.status == Running
    ensures t == Step(p, s) && Searching(p, t.run)
  {
    t := Step(p, s);
    var pool := s.run.availableWords;
    var c := s.run.currentCombination;
    var words := Pick(c, pool);
    if Evaluate(p, words) == Success {
      SuccessRemovesGroup(p, pool, words);
      var rest := Without(pool, words);
      if rest != [] {
        FreshSearches(p, rest);
      }
    } else {
      NextIsSuccessor(c, |pool|);
      var g := SomeGroupInPool(p, pool);
      LexTotal(c, g);
      if Next(c, |pool|).Some? {
        var d := Next(c, |pool|).value;
        forall e | IsCombination(e, |pool|) && |e| == GROUP_SIZE && LexLess(e, d)
          ensures Evaluate(p, Pick(e, pool)) != Success
        {
          LexTotal(c, e);
          if LexLess(c, e) {
            RemainingAntitone(e, d, 0, |pool|);
            if e != d {
              RemainingAntitone(d, e, 0, |pool|);
            }
          }
        }
      }
    }
  }

  // ----- and it is bounded -----

  /** The most guesses needed for a board of g groups. */
  function MaxGuesses(g: nat): nat {
    if g == 0 then 0 else Binomial(4 * g, GROUP_SIZE) + MaxGuesses(g - 1)
  }

  ghost function Budget(run: Run): nat
    requires run.status == Running ==> Enumerating(run)
  {
    if run.status == Running
    then Remaining(run.currentCombination, 0, |run.availableWords|) + MaxGuesses(|run.availableWords| / GROUP_SIZE - 1)
    else 0
  }

  lemma FreshBudget(pool: seq<Word>)
    requires |pool| >= GROUP_SIZE && |pool| % GROUP_SIZE == 0
    ensures Enumerating(Fresh(pool).run)
    ensures Budget(Fresh(pool).run) == MaxGuesses(|pool| / GROUP_SIZE)
  {
    var g := |pool| / GROUP_SIZE;
    assert |pool| == 4 * g;
    RemainingOfRun(FirstCombination(GROUP_SIZE), 0, 0, |pool|);
    assert MaxGuesses(g) == Binomial(4 * g, GROUP_SIZE) + MaxGuesses(g - 1);
  }

  lemma StepSpends(p: Puzzle, s: Progress)
    requires p.WellFormed() && WholeGroups(p, s.run.availableWords)
    requires s.run.status == Running && Enumerating(s.run)
    ensures var run := Step(p, s).run;
            run.status == Running ==> Enumerating(run) && Budget(run) < Budget(s.run)
    ensures Budget(s.run) > 0
  {
    var words := Pick(s.run.currentCombination, s.run.availableWords);
    if Evaluate(p, words) == Success {
      SuccessRemovesGroup(p, s.run.availableWords, words);
    }
    GuessSpends(s.run, words, Evaluate(p, words));
  }

  lemma GuessSpends(run: Run, words: seq<Word>, result: GuessResult)
    requires run.status == Running && Enumerating(run)
    requires |run.availableWords| % GROUP_SIZE == 0
    requires result == Success ==> |Without(run.availableWords, words)| == |run.availableWords| - GROUP_SIZE
    ensures var next := AfterGuess(run, words, result);
            next.status == Running ==> Enumerating(next) && Budget(next) < Budget(run)
    ensures Budget(run) > 0
  {
    RemainingPositive(run.currentCombination, 0, |run.availableWords|);
    if result == Success {
      if Without(run.availableWords, words) != [] {
        FreshBudget(Without(run.availableWords, words));
      }
    } else {
      NextCountsDown(run.currentCombination, 0, |run.availableWords|);
    }
  }

  /** The progress after m passes, stopping when the run is no longer RUNNING. */
  ghost function After(p: Puzzle, s: Progress, m: nat): Progress
    decreases m
  {
    if m == 0 || s.run.status != Running || !InPool(s.run) then s else After(p, Step(p, s), m - 1)
  }

  lemma {:induction false} AfterSearches(p: Puzzle, s: Progress, m: nat) returns (t: Progress)
    requires p.WellFormed() && Searching(p, s.run)
    ensures t == After(p, s, m) && Searching(p, t.run)
    decreases m
  {
    if m > 0 && s.run.status == Running {
      var next := StepSearches(p, s);
      t := AfterSearches(p, next, m - 1);
    } else {
      t := s;
    }
  }

  lemma {:induction false} AfterSpends(p: Puzzle, s: Progress, m: nat)
    requires p.WellFormed() && Searching(p, s.run)
    ensures m >= Budget(s.run) ==> After(p, s, m).run.status != Running
    ensures |After(p, s, m).guesses| <= |s.guesses| + Budget(s.run)
    decreases m
  {
    if s.run.status == Running {
      StepSpends(p, s);
      if m > 0 {
        var next := StepSearches(p, s);
        AfterSpends(p, next, m - 1);
      }
    }
  }

  /**
   Ordered solving is total: from any order of the board's words, the run never
   FAILS, its pool stays whole groups, and it is COMPLETED, everything solved,
   within MaxGuesses(groups) guesses.
   */
  lemma OrderedSolvingIsTotal(p: Puzzle, words: seq<Word>, m: nat)
    requires p.WellFormed() && WholeGroups(p, words) && words != []
    ensures After(p, Fresh(words), m).run.status == Running ==> Enumerating(After(p, Fresh(words), m).run)
    ensures After(p, Fresh(words), m).run.status != Failed
    ensures WholeGroups(p, After(p, Fresh(words), m).run.availableWords)
    ensures |After(p, Fresh(words), m).guesses| <= MaxGuesses(|words| / GROUP_SIZE)
    ensures m >= MaxGuesses(|words| / GROUP_SIZE) ==>
              && After(p, Fresh(words), m).run.status == Completed
              && After(p, Fresh(words), m).run.availableWords == []
  {
    FreshBudget(words);
    FreshSearches(p, words);
    var t := AfterSearches(p, Fresh(words), m);
    AfterSpends(p, Fresh(words), m);
  }

  /** From x * k = y * m and f * y = z: f * k * x = z * m. */
  lemma Rescale(x: int, y: int, k: int, m: int, f: int, z: int)
    requires x * k == y * m && f * y == z
    ensures (f * k) * x == z * m
  {
    assert (f * k) * x == f * (x * k) == f * (y * m) == (f * y) * m;
  }

  lemma FourOf(n: nat, r: nat)
    requires 24 * r == n * (n - 1) * (n - 2) * (n - 3)
    ensures Binomial(n, 4) == r
  {
    var b1, b2, b3, b4 := Binomial(n, 1), Binomial(n, 2), Binomial(n, 3), Binomial(n, 4);
    BinomialRatio(n, 0);
    BinomialRatio(n, 1);
    BinomialRatio(n, 2);
    BinomialRatio(n, 3);
    assert 2 * b2 == n * (n - 1);
    Rescale(b3, b2, 3, n - 2, 2, n * (n - 1));
    Rescale(b4, b3, 4, n - 3, 6, n * (n - 1) * (n - 2));
  }

  /** The classic board of four groups: at most 1820 + 495 + 70 + 1 guesses. */
  lemma SixteenWords(groups: nat)
    requires groups == 4
    ensures MaxGuesses(groups) == 2386
  {
    FourOf(4 * groups, 1820);
    FourOf(4 * (groups - 1), 495);
    FourOf(4 * (groups - 2), 70);
    FourOf(4 * (groups - 3), 1);
    assert MaxGuesses(groups - 3) == 1;
    assert MaxGuesses(groups - 2) == 71;
    assert MaxGuesses(groups - 1) == 566;
  }

  // ----- crashes -----

  /** What a worker holds in memory: the live run, its guess count and the unflushed guesses. */
  datatype Worker = Worker(run: Run, guessCount: nat, pending: seq<Guess>)

  datatype Slot<T> = Down | Up(worker: T)

  /** The database rows of one run, and the worker processing it, if any. */
  datatype World = World(stored: Progress, live: Slot<Worker>)

  datatype Event = Start | Loop | Flush | Crash

  predicate MustFlush(w: Worker) {
    |w.pending| >= BATCH_SIZE || (w.pending != [] && w.run.status != Running)
  }

  /** One pass held in memory: the guess is numbered and staged, the run row is changed in place. */
  function WorkerStep(p: Puzzle, w: Worker): Worker
    requires InPool(w.run)
  {
    var words := Pick(w.run.currentCombination, w.run.availableWords);
    var result := Evaluate(p, words);
    Worker(AfterGuess(w.run, words, result), w.guessCount + 1,
           w.pending + [Guess(words, result, w.guessCount + 1)])
  }

  /** Start loads the stored rows; Flush commits run and guesses at once; Crash loses the memory. */
  function React(p: Puzzle, s: World, e: Event): World {
    match (e, s.live)
    case (Start, Down) =>
      if s.stored.run.status == Running
      then s.(live := Up(Worker(s.stored.run, |s.stored.guesses|, []))) else s
    case (Loop, Up(w)) =>
      if w.run.status == Running && !MustFlush(w) && InPool(w.run)
      then s.(live := Up(WorkerStep(p, w))) else s
    case (Flush, Up(w)) =>
      if MustFlush(w)
      then World(Progress(w.run, s.stored.guesses + w.pending), Up(w.(pending := [])))
      else s
    case (Crash, _) => s.(live := Down)
    case _ => s
  }

  function History(p: Puzzle, s: World, events: seq<Event>): World
    decreases |events|
  {
    if events == [] then s else History(p, React(p, s, events[0]), events[1..])
  }

  ghost predicate OnTrack(p: Puzzle, start: Progress, s: Progress) {
    exists m: nat :: s == After(p, start, m)
  }

  ghost function InMemory(s: World): Progress {
    match s.live
    case Down => s.stored
    case Up(w) => Progress(w.run, s.stored.guesses + w.pending)
  }

  /** Both what is stored and what is in memory lie on the one uninterrupted run. */
  ghost predicate Consistent(p: Puzzle, start: Progress, s: World) {
    && OnTrack(p, start, s.stored)
    && OnTrack(p, start, InMemory(s))
    && (s.live.Up? ==> s.live.worker.guessCount == |InMemory(s).guesses|)
  }

  lemma {:induction false} AfterOneMore(p: Puzzle, s: Progress, m: nat)
    requires After(p, s, m).run.status == Running && InPool(After(p, s, m).run)
    ensures After(p, s, m + 1) == Step(p, After(p, s, m))
    decreases m
  {
    if m == 0 {
      assert After(p, s, 1) == After(p, Step(p, s), 0);
    } else if s.run.status == Running && InPool(s.run) {
      AfterOneMore(p, Step(p, s), m - 1);
    }
  }

  lemma ReactConsistent(p: Puzzle, start: Progress, s: World, e: Event)
    requires Consistent(p, start, s)
    ensures Consistent(p, start, React(p, s, e))
  {
    var t := React(p, s, e);
    match (e, s.live) {
      case (Start, Down) =>
        if s.stored.run.status == Running {
          assert s.stored.guesses + [] == s.stored.guesses;
          assert InMemory(t) == s.stored;
        }
      case (Loop, Up(w)) =>
        if w.run.status == Running && !MustFlush(w) && InPool(w.run) {
          var m: nat :| InMemory(s) == After(p, start, m);
          AfterOneMore(p, start, m);
          var g := WorkerStep(p, w).pending;
          assert s.stored.guesses + g == (s.stored.guesses + w.pending) + [g[|g| - 1]];
          assert InMemory(t) == Step(p, InMemory(s));
          assert InMemory(t) == After(p, start, m + 1);
        }
      case (Flush, Up(w)) =>
        if MustFlush(w) {
          assert InMemory(t).guesses == t.stored.guesses == InMemory(s).guesses;
        }
      case _ =>
    }
  }

  lemma {:induction false} HistoryConsistent(p: Puzzle, start: Progress, s: World, events: seq<Event>)
    requires Consistent(p, start, s)
    ensures Consistent(p, start, History(p, s, events))
    decreases |events|
  {
    if events != [] {
      ReactConsistent(p, start, s, events[0]);
      HistoryConsistent(p, start, React(p, s, events[0]), events[1..]);
    }
  }

  lemma {:induction false} Numbered(p: Puzzle, s: Progress, m: nat)
    requires forall i :: 0 <= i < |s.guesses| ==> s.guesses[i].sequenceNumber == i + 1
    ensures forall i :: 0 <= i < |After(p, s, m).guesses| ==> After(p, s, m).guesses[i].sequenceNumber == i + 1
    decreases m
  {
    if m > 0 && s.run.status == Running && InPool(s.run) {
      Numbered(p, Step(p, s), m - 1);
    }
  }

  /** The uninterrupted run only appends, and a finished run stays as it is. */
  lemma {:induction false} AfterExtends(p: Puzzle, s: Progress, a: nat, b: nat)
    requires a <= b
    ensures After(p, s, a).guesses <= After(p, s, b).guesses
    ensures After(p, s, a).run.status != Running ==> After(p, s, a) == After(p, s, b)
    decreases b
  {
    if b > 0 && s.run.status == Running && InPool(s.run) {
      if a > 0 {
        AfterExtends(p, Step(p, s), a - 1, b - 1);
      } else {
        AfterExtends(p, Step(p, s), 0, b - 1);
      }
    }
  }

  lemma FinishedIsWhole(p: Puzzle, words: seq<Word>, m: nat)
    requires p.WellFormed() && WholeGroups(p, words) && words != []
    requires After(p, Fresh(words), m).run.status != Running
    ensures After(p, Fresh(words), m) == After(p, Fresh(words), MaxGuesses(|words| / GROUP_SIZE))
    ensures After(p, Fresh(words), m).run.status == Completed
  {
    var top := MaxGuesses(|words| / GROUP_SIZE);
    OrderedSolvingIsTotal(p, words, top);
    if m <= top {
      AfterExtends(p, Fresh(words), m, top);
    } else {
      AfterExtends(p, Fresh(words), top, m);
    }
  }

  /**
   Crash refinement: after any history of starts, passes, flushes and crashes,
   the stored guesses are numbered 1..n and are a prefix of those of the
   uninterrupted run; once the stored run is finished they are all of them.
   */
  lemma CrashRefinement(p: Puzzle, words: seq<Word>, events: seq<Event>)
    requires p.WellFormed() && WholeGroups(p, words) && words != []
    ensures var stored := History(p, World(Fresh(words), Down), events).stored;
            var whole := After(p, Fresh(words), MaxGuesses(|words| / GROUP_SIZE));
            && stored.guesses <= whole.guesses
            && (stored.run.status != Running ==> stored == whole)
            && stored.run.status != Failed
            && forall i :: 0 <= i < |stored.guesses| ==> stored.guesses[i].sequenceNumber == i + 1
  {
    var start := Fresh(words);
    assert start == After(p, start, 0);
    HistoryConsistent(p, start, World(start, Down), events);
    var stored := History(p, World(start, Down), events).stored;
    var m: nat :| stored == After(p, start, m);
    OrderedSolvingIsTotal(p, words, m);
    Numbered(p, start, m);
    var top := MaxGuesses(|words| / GROUP_SIZE);
    if stored.run.status != Running {
      FinishedIsWhole(p, words, m);
    } else {
      OrderedSolvingIsTotal(p, words, top);
      AfterExtends(p, start, m, top);
    }
  }

  // ----- the loop itself -----

  /** The rows of one run, as StrategyRunStore keeps them. */
  class RunStore {
    var run: Run
    var guesses: seq<Guess>

    constructor (words: seq<Word>)
      ensures Stored() == Fresh(words)
    {
      run := Fresh(words).run;
      guesses := [];
    }

    function Stored(): Progress
      reads this
    {
      Progress(run, guesses)
    }

    /** One transaction: the staged guesses and the run row commit together. */
    method FlushBatch(newRun: Run, pending: seq<Guess>)
      modifies this
      ensures Stored() == Progress(newRun, old(guesses) + pending)
    {
      guesses := guesses + pending;
      run := newRun;
    }
  }

  /** What is stored plus what is staged. */
  function Unflushed(guesses: seq<Guess>, w: Worker): Progress {
    Progress(w.run, guesses + w.pending)
  }

  /** The flush at the end of a pass: after every BATCH_SIZE staged guesses, and at the end of the run. */
  method FlushIfDue(store: RunStore, w: Worker) returns (r: Worker)
    modifies store
    ensures r.run == w.run && r.guessCount == w.guessCount
    ensures Unflushed(store.guesses, r) == Unflushed(old(store.guesses), w)
    ensures if |w.pending| >= BATCH_SIZE || w.run.status != Running
            then r.pending == [] && store.Stored() == Unflushed(old(store.guesses), w)
            else r == w && store.Stored() == old(store.Stored())
  {
    r := w;
    if |w.pending| >= BATCH_SIZE || w.run.status != Running {
      store.FlushBatch(w.run, w.pending);
      r := w.(pending := []);
      assert store.guesses + [] == store.guesses;
    }
  }

  /** One pass of the loop up to the flush: pick, number, evaluate, stage, update the run. */
  method StageGuess(p: Puzzle, w: Worker) returns (r: Worker)
    requires InPool(w.run)
    ensures r == WorkerStep(p, w)
  {
    var run := w.run;
    var words := Pick(run.currentCombination, run.availableWords);
    var guessCount := w.guessCount + 1;
    var result := EvaluateGuess(p, words);
    var pending := w.pending + [Guess(words, result, guessCount)];
    if result == Success {
      run := run.(availableWords := Without(run.availableWords, words),
                  currentCombination := FirstCombination(GROUP_SIZE));
      if run.availableWords == [] {
        run := run.(status := Completed);
      }
    } else {
      var next := NextCombination(run.currentCombination, |run.availableWords|);
      match next {
        case None => run := run.(status := Failed);
        case Some(c) => run := run.(currentCombination := c);
      }
    }
    r := Worker(run, guessCount, pending);
  }

  lemma PassOnTrack(p: Puzzle, words: seq<Word>, stored: Progress, w: Worker, m: nat)
    requires p.WellFormed() && WholeGroups(p, words) && words != []
    requires After(p, Fresh(words), m) == Progress(w.run, stored.guesses + w.pending)
    requires w.run.status == Running && w.guessCount == |stored.guesses + w.pending|
    ensures Enumerating(w.run) && InPool(w.run)
    ensures var w' := WorkerStep(p, w);
            && After(p, Fresh(words), m + 1) == Progress(w'.run, stored.guesses + w'.pending)
            && w'.guessCount == |stored.guesses + w'.pending|
            && (w'.run.status == Running ==> Enumerating(w'.run) && Budget(w'.run) < Budget(w.run))
  {
    OrderedSolvingIsTotal(p, words, m);
    var s := Progress(w.run, stored.guesses + w.pending);
    StepSpends(p, s);
    AfterOneMore(p, Fresh(words), m);
    var w' := WorkerStep(p, w);
    assert stored.guesses + w'.pending == s.guesses + [w'.pending[|w.pending|]];
  }

  /**
   runDeterministicStrategy, started on whatever an earlier worker left stored:
   it terminates, and leaves exactly what the uninterrupted run would have left.
   */
  method RunOrderedStrategy(p: Puzzle, store: RunStore, ghost words: seq<Word>)
    returns (status: Status, guessCount: nat)
    requires p.WellFormed() && WholeGroups(p, words) && words != []
    requires OnTrack(p, Fresh(words), store.Stored())
    modifies store
    ensures store.Stored() == After(p, Fresh(words), MaxGuesses(|words| / GROUP_SIZE))
    ensures status == Completed && guessCount == |store.guesses|
  {
    ghost var m: nat :| store.Stored() == After(p, Fresh(words), m);
    if store.run.status != Running {
      FinishedIsWhole(p, words, m);
      return store.run.status, |store.guesses|;
    }
    var w := Worker(store.run, |store.guesses|, []);
    assert store.guesses + [] == store.guesses;
    PassOnTrack(p, words, store.Stored(), w, m);
    while true
      invariant After(p, Fresh(words), m) == Unflushed(store.guesses, w)
      invariant w.run.status == Running && w.guessCount == |store.guesses + w.pending|
      invariant Enumerating(w.run)
      decreases Budget(w.run)
    {
      PassOnTrack(p, words, store.Stored(), w, m);
      w := StageGuess(p, w);
      m := m + 1;
      w := FlushIfDue(store, w);
      if w.run.status != Running {
        break;
      }
    }
    FinishedIsWhole(p, words, m);
    return w.run.status, w.guessCount;
  }
}
