/**
 The shuffle-smart strategy: sampleRandom, pickRandomGroup and the shuffle branch
 of runDeterministicStrategy (backend/src/modules/strategy/deterministic-solver.service.ts).
 Randomness is an oracle: every draw below may come out any way at all.
 */
module ShuffleSolver {
  import opened Options
  import opened Combinatorics
  import opened Collections
  import opened Puzzles
  import opened WordLists
  import opened DeterministicSolver

  /** r was drawn from the pool at pairwise different positions. */
  ghost predicate IsDraw<T>(pool: seq<T>, r: seq<T>, at: seq<int>) {
    && |at| == |r| && Distinct(at)
    && forall i :: 0 <= i < |r| ==> 0 <= at[i] < |pool| && r[i] == pool[at[i]]
  }

  function Swap<T>(s: seq<T>, i: nat, j: nat): seq<T>
    requires i < |s| && j < |s|
  {
    s[i := s[j]][j := s[i]]
  }

  lemma SwapDraw<T>(pool: seq<T>, r: seq<T>, at: seq<int>, i: nat, j: nat)
    requires IsDraw(pool, r, at) && i < |r| && j < |r|
    ensures IsDraw(pool, Swap(r, i, j), Swap(at, i, j))
  {
  }

  /** Partial Fisher-Yates: shuffle the last k positions, then take them. */
  method SampleRandom<T>(pool: seq<T>, k: nat) returns (r: seq<T>, ghost at: seq<int>)
    requires k <= |pool|
    ensures |r| == k && IsDraw(pool, r, at)
  {
    var copy := pool;
    var n := |pool|;
    ghost var from := seq(n, i => i);
    var i := n - 1;
    while i >= n - k
      invariant n - k - 1 <= i < n && |copy| == n
      invariant IsDraw(pool, copy, from)
      decreases i
    {
      var j: nat :| j <= i;
      SwapDraw(pool, copy, from, i, j);
      copy := Swap(copy, i, j);
      from := Swap(from, i, j);
      i := i - 1;
    }
    at := from[n - k..];
    r := copy[n - k..];
  }

  /** A draw of a group that was tried before. */
  ghost predicate TriedDraw(pool: seq<Word>, tried: set<string>, group: seq<Word>) {
    && |group| == GROUP_SIZE && GroupKey(group) in tried
    && exists at: seq<int> :: IsDraw(pool, group, at)
  }

  /**
   Rejection sampling: a group that was not tried before; nothing when the pool is too
   small, or when every one of ten times C(n, 4) draws, returned in `draws`, was tried.
   */
  method PickRandomGroup(pool: seq<Word>, tried: set<string>)
    returns (r: Option<seq<Word>>, ghost at: seq<int>, ghost draws: seq<seq<Word>>)
    ensures r.Some? ==> |r.value| == GROUP_SIZE && IsDraw(pool, r.value, at) && GroupKey(r.value) !in tried
    ensures r.None? ==>
              || |pool| < GROUP_SIZE
              || (|draws| == 10 * Binomial(|pool|, GROUP_SIZE)
                  && forall i :: 0 <= i < |draws| ==> TriedDraw(pool, tried, draws[i]))
    ensures |pool| < GROUP_SIZE ==> r.None?
  {
    at, draws := [], [];
    if |pool| < GROUP_SIZE {
      return None, at, draws;
    }
    var totalCombos := CombinationCount(|pool|, GROUP_SIZE);
    for attempt := 0 to totalCombos * 10
      invariant |draws| == attempt && forall i :: 0 <= i < |draws| ==> TriedDraw(pool, tried, draws[i])
    {
      var group;
      group, at := SampleRandom(pool, GROUP_SIZE);
      if GroupKey(group) !in tried {
        return Some(group), at, draws;
      }
      draws := draws + [group];
    }
    return None, at, draws;
  }

  // ----- a bound on families of k-subsets -----

  lemma {:induction false} ShrinkKeepsSize<T>(family: set<set<T>>, x: T) returns (shrunk: set<set<T>>)
    requires forall f :: f in family ==> x in f
    ensures |shrunk| == |family|
    ensures forall g :: g in shrunk <==> exists f :: f in family && g == f - {x}
    decreases family
  {
    if family == {} {
      shrunk := {};
    } else {
      var f :| f in family;
      var rest := ShrinkKeepsSize(family - {f}, x);
      assert f == (f - {x}) + {x};
      forall g | g in family - {f} ensures g - {x} != f - {x} {
        assert g == (g - {x}) + {x};
      }
      shrunk := rest + {f - {x}};
      assert forall g :: g in family <==> g == f || g in family - {f};
    }
  }

  ghost predicate SubsetsOf<T>(family: set<set<T>>, all: set<T>, k: int) {
    forall f :: f in family ==> f <= all && |f| == k
  }

  /** Split a family on one element: the subsets with it, shrunk by it, and those without it. */
  lemma SplitFamily<T>(family: set<set<T>>, all: set<T>, k: nat, x: T) returns (with: set<set<T>>, without: set<set<T>>)
    requires SubsetsOf(family, all, k) && x in all
    ensures |family| == |with| + |without|
    ensures SubsetsOf(with, all - {x}, k - 1) && SubsetsOf(without, all - {x}, k)
  {
    var having := set f | f in family && x in f;
    without := set f | f in family && x !in f;
    assert family == having + without && having !! without;
    with := ShrinkKeepsSize(having, x);
    forall g | g in with ensures g <= all - {x} && |g| == k - 1 {
      var f :| f in having && g == f - {x};
    }
  }

  lemma SmallFamily<T>(family: set<set<T>>, all: set<T>, k: nat)
    requires k == 0 || all == {}
    requires SubsetsOf(family, all, k)
    ensures |family| <= Binomial(|all|, k)
  {
    var empty: set<T> := {};
    assert forall f :: f in family ==> f == empty;
    assert family <= {empty};
    SubsetSize(family, {empty});
    if k != 0 {
      assert empty !in family;
    }
  }

  /** There are at most Binomial(n, k) different k-element subsets of n things. */
  lemma {:induction false} SubsetsBound<T>(family: set<set<T>>, all: set<T>, k: nat)
    requires SubsetsOf(family, all, k)
    ensures |family| <= Binomial(|all|, k)
    decreases |all|
  {
    if k == 0 || all == {} {
      SmallFamily(family, all, k);
    } else {
      var x :| x in all;
      var with, without := SplitFamily(family, all, k, x);
      var rest := all - {x};
      SubsetsBound(with, rest, k - 1);
      SubsetsBound(without, rest, k);
    }
  }

  // ----- never the same group twice -----

  /** Guesses are four different words of the board, no two naming the same words. */
  ghost predicate NoRepeats(board: seq<Word>, guesses: seq<Guess>) {
    && (forall i :: 0 <= i < |guesses| ==> IsGroupGuess(board, guesses[i].words))
    && (forall i, j :: 0 <= i < j < |guesses| ==> multiset(guesses[i].words) != multiset(guesses[j].words))
  }

  ghost predicate IsGroupGuess(board: seq<Word>, words: seq<Word>) {
    |words| == GROUP_SIZE && Distinct(words) && forall w :: w in words ==> w in board
  }

  lemma DistinctIsSet(a: seq<Word>, b: seq<Word>)
    requires Distinct(a) && Distinct(b) && Elems(a) == Elems(b)
    ensures multiset(a) == multiset(b)
  {
    DistinctCounts(a);
    DistinctCounts(b);
    forall w ensures multiset(a)[w] == multiset(b)[w] {
      assert w in a <==> w in Elems(a);
      assert w in b <==> w in Elems(b);
      assert w in a <==> w in multiset(a);
      assert w in b <==> w in multiset(b);
    }
  }

  lemma {:induction false} GuessFamily(board: seq<Word>, guesses: seq<Guess>) returns (family: set<set<Word>>)
    requires NoRepeats(board, guesses)
    ensures |family| == |guesses|
    ensures forall f :: f in family ==> f <= Elems(board) && |f| == GROUP_SIZE
    ensures forall f :: f in family ==> exists i :: 0 <= i < |guesses| && f == Elems(guesses[i].words)
  {
    if guesses == [] {
      family := {};
    } else {
      var front := guesses[..|guesses| - 1];
      var last := guesses[|guesses| - 1].words;
      var rest := GuessFamily(board, front);
      if Elems(last) in rest {
        var i :| 0 <= i < |front| && Elems(last) == Elems(front[i].words);
        DistinctIsSet(last, guesses[i].words);
      }
      ElemsSize(last);
      family := rest + {Elems(last)};
    }
  }

  /** A run without repeats makes at most C(n, 4) guesses. */
  lemma NoRepeatsBound(board: seq<Word>, guesses: seq<Guess>)
    requires NoRepeats(board, guesses)
    ensures |guesses| <= Binomial(|Elems(board)|, GROUP_SIZE)
  {
    var family := GuessFamily(board, guesses);
    SubsetsBound(family, Elems(board), GROUP_SIZE);
  }

  /** The keys of the guesses, all of them and no others. */
  ghost predicate KeysOf(tried: set<string>, guesses: seq<Guess>) {
    && (forall i :: 0 <= i < |guesses| ==> GroupKey(guesses[i].words) in tried)
    && forall key :: key in tried ==> exists i :: 0 <= i < |guesses| && GroupKey(guesses[i].words) == key
  }

  lemma KeysAppend(tried: set<string>, guesses: seq<Guess>, g: Guess)
    requires KeysOf(tried, guesses)
    ensures KeysOf(tried + {GroupKey(g.words)}, guesses + [g])
  {
    var more := guesses + [g];
    assert more[|guesses|] == g;
    assert forall i :: 0 <= i < |guesses| ==> more[i] == guesses[i];
  }

  lemma FreshKeyIsNew(board: seq<Word>, guesses: seq<Guess>, tried: set<string>, g: Guess)
    requires NoBars(board) && NoRepeats(board, guesses) && KeysOf(tried, guesses)
    requires IsGroupGuess(board, g.words) && GroupKey(g.words) !in tried
    ensures NoRepeats(board, guesses + [g])
  {
    forall i | 0 <= i < |guesses| ensures multiset(guesses[i].words) != multiset(g.words) {
      GroupKeyIdentifies(guesses[i].words, g.words);
    }
  }

  lemma DrawIsGroupGuess(board: seq<Word>, pool: seq<Word>, words: seq<Word>, at: seq<int>)
    requires Distinct(pool) && (forall w :: w in pool ==> w in board)
    requires |words| == GROUP_SIZE && IsDraw(pool, words, at)
    ensures IsGroupGuess(board, words)
  {
    forall i, j | 0 <= i < j < |words| ensures words[i] != words[j] {
      assert at[i] != at[j];
    }
  }

  /** The run row after a judged random guess: only a success changes it. */
  function Judged(run: Run, words: seq<Word>, result: GuessResult): Run {
    if result != Success then run
    else
      var rest := Without(run.availableWords, words);
      Run(rest, FirstCombination(GROUP_SIZE), if rest == [] then Completed else run.status)
  }

  /** Every guess is numbered in order and judged by the puzzle. */
  ghost predicate Judging(p: Puzzle, guesses: seq<Guess>) {
    forall i :: 0 <= i < |guesses| ==>
                  guesses[i].sequenceNumber == i + 1 && guesses[i].result == Evaluate(p, guesses[i].words)
  }

  /** The words left are the board's minus those of the successes, and the run is completed when there are none. */
  ghost predicate LeftOver(board: seq<Word>, run: Run, guesses: seq<Guess>) {
    && (run.status == Completed <==> run.availableWords == [])
    && forall w :: w in run.availableWords <==> w in board && InNoSuccess(w, guesses)
  }

  ghost predicate InNoSuccess(w: Word, guesses: seq<Guess>) {
    forall i :: 0 <= i < |guesses| && guesses[i].result == Success ==> w !in guesses[i].words
  }

  lemma InNoSuccessAppend(w: Word, guesses: seq<Guess>, g: Guess)
    ensures InNoSuccess(w, guesses + [g]) <==> InNoSuccess(w, guesses) && (g.result == Success ==> w !in g.words)
  {
    assert (guesses + [g])[|guesses|] == g;
    assert forall i :: 0 <= i < |guesses| ==> (guesses + [g])[i] == guesses[i];
  }

  /** One more judged guess keeps the books. */
  lemma JudgedKeeps(p: Puzzle, board: seq<Word>, run: Run, guesses: seq<Guess>, g: Guess)
    requires Judging(p, guesses) && LeftOver(board, run, guesses) && run.status == Running
    requires g.sequenceNumber == |guesses| + 1 && g.result == Evaluate(p, g.words)
    ensures Judging(p, guesses + [g]) && LeftOver(board, Judged(run, g.words, g.result), guesses + [g])
  {
    forall w
      ensures InNoSuccess(w, guesses + [g]) <==> InNoSuccess(w, guesses) && (g.result == Success ==> w !in g.words)
    {
      InNoSuccessAppend(w, guesses, g);
    }
  }

  ghost predicate PoolOf(board: seq<Word>, run: Run) {
    Distinct(run.availableWords) && forall w :: w in run.availableWords ==> w in board
  }

  lemma PoolShrinks(board: seq<Word>, run: Run, words: seq<Word>)
    requires PoolOf(board, run)
    ensures PoolOf(board, run.(availableWords := Without(run.availableWords, words)))
  {
    WithoutDistinct(run.availableWords, words);
  }

  lemma StagedGuess(board: seq<Word>, stored: seq<Guess>, pending: seq<Guess>, tried: set<string>, g: Guess)
    requires NoBars(board) && NoRepeats(board, stored + pending) && KeysOf(tried, stored + pending)
    requires IsGroupGuess(board, g.words) && GroupKey(g.words) !in tried
    ensures NoRepeats(board, stored + (pending + [g]))
    ensures KeysOf(tried + {GroupKey(g.words)}, stored + (pending + [g]))
  {
    FreshKeyIsNew(board, stored + pending, tried, g);
    KeysAppend(tried, stored + pending, g);
    assert stored + (pending + [g]) == (stored + pending) + [g];
  }

  /** `for (const guess of priorGuesses) triedGroups.add(groupKey(guess.words))`. */
  method TriedKeys(guesses: seq<Guess>) returns (tried: set<string>)
    ensures KeysOf(tried, guesses)
  {
    tried := {};
    for i := 0 to |guesses|
      invariant KeysOf(tried, guesses[..i])
    {
      assert guesses[..i + 1] == guesses[..i] + [guesses[i]];
      KeysAppend(tried, guesses[..i], guesses[i]);
      tried := tried + {GroupKey(guesses[i].words)};
    }
    assert guesses[..|guesses|] == guesses;
  }

  /**
   One pass of the shuffle-smart loop up to the flush: a new group is picked, numbered,
   judged and staged, or the run fails because none turned up.
   */
  method StageRandomGuess(p: Puzzle, w: Worker, tried: set<string>, ghost board: seq<Word>, ghost stored: seq<Guess>)
    returns (r: Worker, tried': set<string>, ghost draws: seq<seq<Word>>)
    requires NoBars(board) && PoolOf(board, w.run) && w.run.status == Running
    requires NoRepeats(board, stored + w.pending) && KeysOf(tried, stored + w.pending)
    ensures PoolOf(board, r.run)
    ensures NoRepeats(board, stored + r.pending) && KeysOf(tried', stored + r.pending)
    ensures r.run.status == Failed ==>
              && r == w.(run := w.run.(status := Failed)) && tried' == tried
              && (|w.run.availableWords| < GROUP_SIZE || OutOfLuck(w.run.availableWords, tried, draws))
    ensures r.run.status != Failed ==>
              && r.pending != [] && r.pending == w.pending + [r.pending[|r.pending| - 1]]
              && var g := r.pending[|r.pending| - 1];
                 && g == Guess(g.words, Evaluate(p, g.words), w.guessCount + 1)
                 && (forall x :: x in g.words ==> x in w.run.availableWords)
                 && GroupKey(g.words) !in tried && tried' == tried + {GroupKey(g.words)}
                 && r.run == Judged(w.run, g.words, g.result) && r.guessCount == w.guessCount + 1
  {
    var picked;
    ghost var at;
    picked, at, draws := PickRandomGroup(w.run.availableWords, tried);
    if picked.None? {
      return w.(run := w.run.(status := Failed)), tried, draws;
    }
    var words := picked.value;
    DrawIsGroupGuess(board, w.run.availableWords, words, at);
    var result := EvaluateGuess(p, words);
    var g := Guess(words, result, w.guessCount + 1);
    tried' := tried + {GroupKey(words)};
    StagedGuess(board, stored, w.pending, tried, g);
    PoolShrinks(board, w.run, words);
    var run := w.run;
    if result == Success {
      run := run.(availableWords := Without(run.availableWords, words),
                  currentCombination := FirstCombination(GROUP_SIZE));
      if run.availableWords == [] {
        run := run.(status := Completed);
      }
    }
    r := Worker(run, w.guessCount + 1, w.pending + [g]);
  }

  /** Ten times C(n, 4) draws in a row were of groups tried before. */
  ghost predicate OutOfLuck(pool: seq<Word>, tried: set<string>, draws: seq<seq<Word>>) {
    && |draws| == 10 * Binomial(|pool|, GROUP_SIZE)
    && forall i :: 0 <= i < |draws| ==> TriedDraw(pool, tried, draws[i])
  }

  /** What every stored state of a shuffle-smart run satisfies. */
  ghost predicate StoredOk(p: Puzzle, board: seq<Word>, run: Run, guesses: seq<Guess>) {
    && PoolOf(board, run) && NoRepeats(board, guesses) && Judging(p, guesses) && LeftOver(board, run, guesses)
    && (p.WellFormed() && WholeGroups(p, board) ==> WholeGroups(p, run.availableWords))
  }

  /** A new run on a board of different words does. */
  lemma FreshIsOk(p: Puzzle, board: seq<Word>)
    requires Distinct(board) && board != []
    ensures StoredOk(p, board, Fresh(board).run, Fresh(board).guesses)
  {
    assert forall w :: InNoSuccess(w, []);
  }

  /** A draw from the pool that names the same four words as some guess. */
  ghost predicate Repeats(pool: seq<Word>, guesses: seq<Guess>, draw: seq<Word>) {
    && |draw| == GROUP_SIZE && (exists at: seq<int> :: IsDraw(pool, draw, at))
    && exists j :: 0 <= j < |guesses| && multiset(draw) == multiset(guesses[j].words)
  }

  /**
   Why a run fails: fewer than four words are left, or ten times C(n, 4) draws from the
   words left were all groups guessed before.
   */
  ghost predicate NoNewGroup(pool: seq<Word>, guesses: seq<Guess>, draws: seq<seq<Word>>) {
    || |pool| < GROUP_SIZE
    || (|draws| == 10 * Binomial(|pool|, GROUP_SIZE)
        && forall i :: 0 <= i < |draws| ==> Repeats(pool, guesses, draws[i]))
  }

  lemma TriedIsRepeat(board: seq<Word>, run: Run, guesses: seq<Guess>, tried: set<string>, draw: seq<Word>)
    requires NoBars(board) && PoolOf(board, run) && NoRepeats(board, guesses) && KeysOf(tried, guesses)
    requires TriedDraw(run.availableWords, tried, draw)
    ensures Repeats(run.availableWords, guesses, draw)
  {
    var at: seq<int> :| IsDraw(run.availableWords, draw, at);
    DrawIsGroupGuess(board, run.availableWords, draw, at);
    var j :| 0 <= j < |guesses| && GroupKey(guesses[j].words) == GroupKey(draw);
    GroupKeyIdentifies(guesses[j].words, draw);
  }

  /** Every draw repeats a guess, so there are guesses, unless fewer than four words are left. */
  lemma SomeGuess(p: Puzzle, board: seq<Word>, run: Run, guesses: seq<Guess>, draws: seq<seq<Word>>)
    requires p.WellFormed() && WholeGroups(p, board) && board != [] && StoredOk(p, board, run, guesses)
    requires run.status == Completed || (run.status == Failed && NoNewGroup(run.availableWords, guesses, draws))
    ensures guesses != []
    ensures run.status == Failed ==> |run.availableWords| >= GROUP_SIZE
  {
    assert board[0] in board;
    assert guesses == [] ==> InNoSuccess(board[0], guesses);
    if run.status == Failed {
      BinomialPositive(|run.availableWords|, GROUP_SIZE);
      assert Repeats(run.availableWords, guesses, draws[0]);
    }
  }

  lemma {:induction false} BinomialPositive(n: nat, k: nat)
    requires k <= n
    ensures Binomial(n, k) > 0
  {
    if 0 < k < n {
      BinomialPositive(n - 1, k);
    } else if 0 < k {
      BinomialPositive(n - 1, k - 1);
    }
  }

  /**
   runDeterministicStrategy for shuffle-smart, stopped by a crash after `lives` more steps,
   or not at all. Whatever is stored when it stops again satisfies what it started from, so
   over any number of restarts no group is ever stored twice, and guesses are numbered and
   judged without a gap; it always stops, because there are only C(n, 4) groups. A run that
   did not die is completed with no words left, or failed because every draw was a repeat;
   a finished run is left alone.
   */
  method RunShuffleSmart(p: Puzzle, store: RunStore, lives: Option<nat>, ghost board: seq<Word>)
    returns (died: bool, ghost draws: seq<seq<Word>>)
    requires NoBars(board) && StoredOk(p, board, store.run, store.guesses)
    modifies store
    ensures StoredOk(p, board, store.run, store.guesses)
    ensures old(store.guesses) <= store.guesses
    ensures |store.guesses| <= Binomial(|Elems(board)|, GROUP_SIZE)
    ensures died ==> lives.Some?
    ensures old(store.run.status) != Running ==> !died && store.Stored() == old(store.Stored())
    ensures old(store.run.status) == Running && !died ==>
              || (store.run.status == Completed && store.run.availableWords == [])
              || (store.run.status == Failed && NoNewGroup(store.run.availableWords, store.guesses, draws))
    ensures old(store.run.status) == Running && !died && p.WellFormed() && WholeGroups(p, board) && board != [] ==>
              store.guesses != [] && (store.run.status == Failed ==> |store.run.availableWords| >= GROUP_SIZE)
  {
    died, draws := false, [];
    if store.run.status != Running {
      NoRepeatsBound(board, store.guesses);
      return;
    }
    var w := Worker(store.run, |store.guesses|, []);
    var tried := TriedKeys(store.guesses);
    var left := lives;
    assert store.guesses + [] == store.guesses;
    while w.run.status == Running && !died
      invariant StoredOk(p, board, store.run, store.guesses) && old(store.guesses) <= store.guesses
      invariant !died && w.run.status == Running ==> Ready(p, board, store.run, store.guesses, w, tried)
      invariant !died && w.run.status != Running ==> Ended(store.run, store.guesses, draws)
      invariant (left.Some? <==> lives.Some?) && (died ==> lives.Some?)
      decreases !died, w.run.status == Running, Binomial(|Elems(board)|, GROUP_SIZE) - |store.guesses + w.pending|
    {
      w, tried, left, died, draws := PassAndFlush(p, store, w, tried, left, board);
    }
    NoRepeatsBound(board, store.guesses);
    if !died && p.WellFormed() && WholeGroups(p, board) && board != [] {
      SomeGuess(p, board, store.run, store.guesses, draws);
    }
  }

  ghost predicate Ended(run: Run, guesses: seq<Guess>, draws: seq<seq<Word>>) {
    run.status == Completed || (run.status == Failed && NoNewGroup(run.availableWords, guesses, draws))
  }

  /** What is stored and what is staged on top of it are both in order. */
  ghost predicate Ready(p: Puzzle, board: seq<Word>, run: Run, guesses: seq<Guess>, w: Worker, tried: set<string>) {
    && StoredOk(p, board, run, guesses) && StoredOk(p, board, w.run, guesses + w.pending)
    && KeysOf(tried, guesses + w.pending) && w.guessCount == |guesses + w.pending|
  }

  /** One iteration of the loop; the worker may die before it, or before its flush commits. */
  method PassAndFlush(p: Puzzle, store: RunStore, w: Worker, tried: set<string>, lives: Option<nat>,
                      ghost board: seq<Word>)
    returns (r: Worker, tried': set<string>, left: Option<nat>, died: bool, ghost draws: seq<seq<Word>>)
    requires NoBars(board) && w.run.status == Running && Ready(p, board, store.run, store.guesses, w, tried)
    modifies store
    ensures old(store.guesses) <= store.guesses && StoredOk(p, board, store.run, store.guesses)
    ensures (left.Some? <==> lives.Some?) && (died ==> lives.Some?)
    ensures !died && r.run.status == Running ==>
              && Ready(p, board, store.run, store.guesses, r, tried')
              && |old(store.guesses) + w.pending| < |store.guesses + r.pending| <= Binomial(|Elems(board)|, GROUP_SIZE)
    ensures !died && r.run.status != Running ==> Ended(store.run, store.guesses, draws)
  {
    r, tried', left, died, draws := w, tried, lives, true, [];
    if left == Some(0) {
      return; // the worker dies
    }
    left := if left.Some? then Some(left.value - 1) else None;
    r, tried', draws := Pass(p, w, tried, board, store.guesses);
    if |r.pending| >= BATCH_SIZE || r.run.status != Running {
      if left == Some(0) {
        return; // the worker dies before the transaction commits
      }
      store.FlushBatch(r.run, r.pending);
      r := r.(pending := []);
      assert store.guesses + [] == store.guesses;
    }
    died := false;
  }

  /** A pass of the loop, as far as what is stored depends on it. */
  method Pass(p: Puzzle, w: Worker, tried: set<string>, ghost board: seq<Word>, ghost stored: seq<Guess>)
    returns (r: Worker, tried': set<string>, ghost draws: seq<seq<Word>>)
    requires NoBars(board) && StoredOk(p, board, w.run, stored + w.pending) && w.run.status == Running
    requires KeysOf(tried, stored + w.pending) && w.guessCount == |stored + w.pending|
    ensures StoredOk(p, board, r.run, stored + r.pending) && KeysOf(tried', stored + r.pending)
    ensures r.guessCount == |stored + r.pending| <= Binomial(|Elems(board)|, GROUP_SIZE)
    ensures r.run.status != Failed ==> |r.pending| == |w.pending| + 1
    ensures r.run.status != Running ==> Ended(r.run, stored + r.pending, draws)
  {
    r, tried', draws := StageRandomGuess(p, w, tried, board, stored);
    NoRepeatsBound(board, stored + r.pending);
    if r.run.status != Failed {
      ghost var g := r.pending[|r.pending| - 1];
      OneMore(stored, w.pending, g);
      JudgedOk(p, board, w.run, stored + w.pending, g);
    } else {
      FailedOk(p, board, w.run, stored + w.pending);
      FailedForRepeats(board, w.run, stored + w.pending, tried, draws);
    }
  }

  lemma OneMore(stored: seq<Guess>, pending: seq<Guess>, g: Guess)
    ensures stored + (pending + [g]) == (stored + pending) + [g]
  {
  }

  lemma JudgedOk(p: Puzzle, board: seq<Word>, run: Run, guesses: seq<Guess>, g: Guess)
    requires StoredOk(p, board, run, guesses) && run.status == Running && NoRepeats(board, guesses + [g])
    requires g == Guess(g.words, Evaluate(p, g.words), |guesses| + 1)
    requires |g.words| == GROUP_SIZE && forall x :: x in g.words ==> x in run.availableWords
    ensures StoredOk(p, board, Judged(run, g.words, g.result), guesses + [g])
  {
    JudgedKeeps(p, board, run, guesses, g);
    JudgedWhole(p, board, run, g);
    PoolShrinks(board, run, g.words);
  }

  lemma FailedOk(p: Puzzle, board: seq<Word>, run: Run, guesses: seq<Guess>)
    requires StoredOk(p, board, run, guesses) && run.status == Running
    ensures StoredOk(p, board, run.(status := Failed), guesses)
  {
  }

  lemma FailedForRepeats(board: seq<Word>, run: Run, guesses: seq<Guess>, tried: set<string>, draws: seq<seq<Word>>)
    requires NoBars(board) && PoolOf(board, run) && NoRepeats(board, guesses) && KeysOf(tried, guesses)
    requires |run.availableWords| < GROUP_SIZE || OutOfLuck(run.availableWords, tried, draws)
    ensures NoNewGroup(run.availableWords, guesses, draws)
  {
    if |run.availableWords| >= GROUP_SIZE {
      forall i | 0 <= i < |draws| ensures Repeats(run.availableWords, guesses, draws[i]) {
        TriedIsRepeat(board, run, guesses, tried, draws[i]);
      }
    }
  }

  lemma JudgedWhole(p: Puzzle, board: seq<Word>, run: Run, g: Guess)
    requires p.WellFormed() && WholeGroups(p, board) ==> WholeGroups(p, run.availableWords)
    requires |g.words| == GROUP_SIZE && (forall x :: x in g.words ==> x in run.availableWords)
    requires g.result == Evaluate(p, g.words)
    ensures p.WellFormed() && WholeGroups(p, board) ==> WholeGroups(p, Judged(run, g.words, g.result).availableWords)
  {
    if p.WellFormed() && WholeGroups(p, board) && g.result == Success {
      SuccessRemovesGroup(p, run.availableWords, g.words);
    }
  }
}
