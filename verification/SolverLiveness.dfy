/**
 The ordered strategies after any crashes (backend/src/modules/strategy/deterministic-solver.service.ts):
 whatever a worker has been through, restarting it finishes the run.
 */
module SolverLiveness {
  import opened DeterministicSolver
  import opened Puzzles

  /** A worker with nothing staged holds the run that is stored. */
  ghost predicate NothingLost(s: World) {
    s.live.Up? && s.live.worker.pending == [] ==> s.stored.run == s.live.worker.run
  }

  lemma {:induction false} HistoryLosesNothing(p: Puzzle, s: World, events: seq<Event>)
    requires NothingLost(s)
    ensures NothingLost(History(p, s, events))
    decreases |events|
  {
    if events != [] {
      assert NothingLost(React(p, s, events[0]));
      HistoryLosesNothing(p, React(p, s, events[0]), events[1..]);
    }
  }

  lemma {:induction false} HistoryAppend(p: Puzzle, s: World, a: seq<Event>, b: seq<Event>)
    ensures History(p, s, a + b) == History(p, History(p, s, a), b)
    decreases |a|
  {
    if a == [] {
      assert a + b == b;
    } else {
      assert (a + b)[1..] == a[1..] + b;
      HistoryAppend(p, React(p, s, a[0]), a[1..], b);
    }
  }

  ghost function Whole(p: Puzzle, words: seq<Word>): Progress {
    After(p, Fresh(words), MaxGuesses(|words| / GROUP_SIZE))
  }

  /** Passes still to go, in memory. */
  ghost function ToGo(s: World): nat {
    var run := InMemory(s).run;
    if run.status == Running && Enumerating(run) then Budget(run) + 1 else 0
  }

  ghost function FlushDue(s: World): nat {
    if s.live.Up? && MustFlush(s.live.worker) then 1 else 0
  }

  /** A finished worker is stored whole as soon as what it staged is flushed. */
  lemma FinishedIsStored(p: Puzzle, words: seq<Word>, s: World)
    requires p.WellFormed() && WholeGroups(p, words) && words != []
    requires Consistent(p, Fresh(words), s) && NothingLost(s) && InMemory(s).run.status != Running
    ensures React(p, s, Flush).stored == Whole(p, words)
  {
    var m: nat :| InMemory(s) == After(p, Fresh(words), m);
    FinishedIsWhole(p, words, m);
    if s.live.Up? && s.live.worker.pending == [] {
      assert s.stored.guesses + [] == s.stored.guesses;
    }
  }

  /** A worker that may go on gets one pass closer to the end. */
  lemma LoopGoesOn(p: Puzzle, words: seq<Word>, s: World)
    requires p.WellFormed() && WholeGroups(p, words) && words != []
    requires Consistent(p, Fresh(words), s) && s.live.Up?
    requires s.live.worker.run.status == Running && !MustFlush(s.live.worker)
    ensures ToGo(React(p, s, Loop)) < ToGo(s)
  {
    var w := s.live.worker;
    var m: nat :| InMemory(s) == After(p, Fresh(words), m);
    PassOnTrack(p, words, s.stored, w, m);
  }

  lemma OneMore(p: Puzzle, s: World, e: Event, more: seq<Event>)
    ensures History(p, s, [e] + more) == History(p, React(p, s, e), more)
  {
    assert ([e] + more)[1..] == more;
  }

  /** The event that takes a world on. */
  function NextEvent(s: World): Event {
    match s.live
    case Down => Start
    case Up(w) => if MustFlush(w) then Flush else Loop
  }

  lemma {:induction false} CanFinish(p: Puzzle, words: seq<Word>, s: World) returns (more: seq<Event>)
    requires p.WellFormed() && WholeGroups(p, words) && words != []
    requires Consistent(p, Fresh(words), s) && NothingLost(s)
    ensures History(p, s, more).stored == Whole(p, words)
    decreases ToGo(s), FlushDue(s), s.live.Down?
  {
    if InMemory(s).run.status != Running {
      FinishedIsStored(p, words, s);
      OneMore(p, s, Flush, []);
      more := [Flush] + [];
    } else {
      var e := NextEvent(s);
      ReactConsistent(p, Fresh(words), s, e);
      if e == Loop {
        LoopGoesOn(p, words, s);
      } else if e == Flush {
        assert s.stored.guesses + s.live.worker.pending + [] == s.stored.guesses + s.live.worker.pending;
      } else {
        assert s.stored.guesses + [] == s.stored.guesses;
      }
      var rest := CanFinish(p, words, React(p, s, e));
      OneMore(p, s, e, rest);
      more := [e] + rest;
    }
  }

  /**
   After any history of starts, passes, flushes and crashes there is a way on in which the
   run is stored finished, exactly as if nothing had ever gone wrong.
   */
  lemma FinishesFromAnywhere(p: Puzzle, words: seq<Word>, events: seq<Event>) returns (more: seq<Event>)
    requires p.WellFormed() && WholeGroups(p, words) && words != []
    ensures var stored := History(p, World(Fresh(words), Down), events + more).stored;
            stored.run.status == Completed && stored == Whole(p, words)
  {
    var start := World(Fresh(words), Down);
    assert Fresh(words) == After(p, Fresh(words), 0);
    HistoryConsistent(p, Fresh(words), start, events);
    HistoryLosesNothing(p, start, events);
    more := CanFinish(p, words, History(p, start, events));
    HistoryAppend(p, start, events, more);
    OrderedSolvingIsTotal(p, words, MaxGuesses(|words| / GROUP_SIZE));
  }

  /** A crash costs what was not flushed, and nothing stored: the next worker starts from the stored run. */
  lemma CrashRestarts(p: Puzzle, words: seq<Word>, events: seq<Event>)
    requires p.WellFormed() && WholeGroups(p, words) && words != []
    ensures var stored := History(p, World(Fresh(words), Down), events).stored;
            History(p, World(Fresh(words), Down), events + [Crash, Start])
            == World(stored, if stored.run.status == Running
                             then Up(Worker(stored.run, |stored.guesses|, [])) else Down)
  {
    var s := History(p, World(Fresh(words), Down), events);
    HistoryAppend(p, World(Fresh(words), Down), events, [Crash, Start]);
    OneMore(p, s, Crash, [Start]);
    OneMore(p, React(p, s, Crash), Start, []);
    assert [Crash] + [Start] == [Crash, Start] && [Start] + [] == [Start];
  }
}
