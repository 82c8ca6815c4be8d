/**
 Exactly when it is safe to read rows and queue one after the other in triggerNextLlmTrial
 (backend/src/modules/strategy/strategy-dispatch.service.ts): a run that goes wrong for
 each harmful way of moving a trial past the reads, and none without them.
 */
module TrialReadOrders {
  import opened Options
  import opened TrialAllocation

  // ----- building a history step by step -----

  ghost predicate Reaches(order: ReadOrder, cap: nat, allowed: set<Kind>, events: seq<Event>, s: State) {
    Quiet(order, cap, allowed, EMPTY, events) && Play(order, cap, EMPTY, events) == s
  }

  lemma {:induction false} Append(order: ReadOrder, cap: nat, allowed: set<Kind>, s: State, events: seq<Event>,
                                  e: Event)
    requires Quiet(order, cap, allowed, s, events)
    requires forall kind :: Hides(Play(order, cap, s, events), e, kind) ==> kind in allowed
    ensures Quiet(order, cap, allowed, s, events + [e])
    ensures Play(order, cap, s, events + [e]) == Apply(order, cap, Play(order, cap, s, events), e)
    decreases |events|
  {
    if events == [] {
      assert events + [e] == [e];
    } else {
      assert (events + [e])[1..] == events[1..] + [e];
      Append(order, cap, allowed, Apply(order, cap, s, events[0]), events[1..], e);
    }
  }

  /** A step that takes nothing past an open dispatch. */
  lemma Then(order: ReadOrder, cap: nat, allowed: set<Kind>, events: seq<Event>, s: State, e: Event)
    returns (more: seq<Event>, t: State)
    requires Reaches(order, cap, allowed, events, s) && (s.open.None? || Moved(s, e).None?)
    ensures t == Apply(order, cap, s, e) && Reaches(order, cap, allowed, more, t)
  {
    Append(order, cap, allowed, EMPTY, events, e);
    more, t := events + [e], Apply(order, cap, s, e);
  }

  /** A worker's step that may hide a trial, in a way allowed unless it hides none. */
  lemma ThenMoves(order: ReadOrder, cap: nat, allowed: set<Kind>, events: seq<Event>, s: State, e: Event)
    returns (more: seq<Event>, t: State)
    requires Reaches(order, cap, allowed, events, s) && s.open.Some? && Moved(s, e).Some?
    requires Moved(s, e).value.1 in allowed || Covered(WorkStep(s, e), s.open.value, Moved(s, e).value.0)
    ensures t == WorkStep(s, e) && Reaches(order, cap, allowed, more, t)
  {
    Append(order, cap, allowed, EMPTY, events, e);
    more, t := events + [e], WorkStep(s, e);
  }

  const A := Trial(1, "a")

  function Reading(rows: Option<seq<Trial>>, pending: Option<seq<Trial>>, active: Option<seq<Trial>>)
    : Option<Dispatch>
  {
    Some(Dispatch("b", rows, pending, active))
  }

  lemma NothingSeen(model: string, cap: nat)
    requires cap > 0
    ensures NextTrial([], [], [], model, cap) == Queue(1)
  {
    var none: seq<Trial> := [];
    assert none + (none + none) == none;
    assert TrialsOf(TrialModels(none), model) == {};
  }

  lemma One()
    ensures Drop([A], 0) == [] && [] + [A] == [A]
  {
  }

  /** A dispatch alone with an empty table and queue sees nothing. */
  lemma FirstReads(order: ReadOrder, cap: nat, allowed: set<Kind>) returns (events: seq<Event>, s: State)
    requires order != Snapshot
    ensures Reaches(order, cap, allowed, events, s)
    ensures s == EMPTY.(open := Some(Dispatch("a", Some([]), Some([]), Some([]))))
  {
    events, s := [], EMPTY;
    events, s := Then(order, cap, allowed, events, s, Trigger("a"));
    events, s := Then(order, cap, allowed, events, s, ReadRows);
    events, s := Then(order, cap, allowed, events, s, ReadPending);
    events, s := Then(order, cap, allowed, events, s, ReadActive);
    events, s := Then(order, cap, allowed, events, s, ReadRows);
  }

  /** A first dispatch, alone: trial 1 of model "a" is queued. */
  lemma First(order: ReadOrder, cap: nat, allowed: set<Kind>) returns (events: seq<Event>, s: State)
    requires cap > 0 && order != Snapshot
    ensures Reaches(order, cap, allowed, events, s) && s == State([], [A], [], None, false)
  {
    events, s := FirstReads(order, cap, allowed);
    NothingSeen("a", cap);
    events, s := Then(order, cap, allowed, events, s, Complete);
    One();
  }

  lemma FirstStarted(order: ReadOrder, cap: nat, allowed: set<Kind>) returns (events: seq<Event>, s: State)
    requires cap > 0 && order != Snapshot
    ensures Reaches(order, cap, allowed, events, s) && s == State([], [], [A], None, false)
  {
    events, s := First(order, cap, allowed);
    One();
    events, s := Then(order, cap, allowed, events, s, StartJob(0));
  }

  /** A second dispatch that saw nothing hands out trial 1 again. */
  lemma Collide(order: ReadOrder, cap: nat, allowed: set<Kind>, events: seq<Event>, s: State)
    returns (more: seq<Event>, t: State)
    requires cap > 0 && Reaches(order, cap, allowed, events, s)
    requires A in Owned(s) && s.open == Reading(Some([]), Some([]), Some([]))
    ensures Reaches(order, cap, allowed, more, t) && !OneOwner(Owned(t))
    ensures t == s.(open := None, pending := s.pending + [Trial(1, "b")])
  {
    NothingSeen("b", cap);
    more, t := Then(order, cap, allowed, events, s, Complete);
    assert Trial(1, "b") in Owned(t) && A in Owned(t);
  }

  // ----- a run that goes wrong for each way of hiding -----

  /**
   The order the code uses: a job that writes its row and finishes between the reads is
   in none of them, its number is handed out again, and the worker throws.
   */
  lemma UnsafeWithRowsFirst(cap: nat, allowed: set<Kind>) returns (events: seq<Event>)
    requires cap > 0 && Finishing in allowed
    ensures Quiet(RowsFirst, cap, allowed, EMPTY, events) && Play(RowsFirst, cap, EMPTY, events).mismatch
  {
    var s;
    events, s := FirstStarted(RowsFirst, cap, allowed);
    One();
    events, s := Then(RowsFirst, cap, allowed, events, s, Trigger("b"));
    events, s := Then(RowsFirst, cap, allowed, events, s, ReadRows);
    events, s := Then(RowsFirst, cap, allowed, events, s, WriteRow(0));
    assert s == State([A], [], [A], Reading(Some([]), None, None), false);
    events, s := ThenMoves(RowsFirst, cap, allowed, events, s, FinishJob(0));
    events, s := Then(RowsFirst, cap, allowed, events, s, ReadPending);
    events, s := Then(RowsFirst, cap, allowed, events, s, ReadActive);
    assert s == State([A], [], [], Reading(Some([]), Some([]), Some([])), false);
    events, s := Collide(RowsFirst, cap, allowed, events, s);
    events := Throws(cap, allowed, events, s);
  }

  lemma Throws(cap: nat, allowed: set<Kind>, events: seq<Event>, s: State) returns (more: seq<Event>)
    requires Reaches(RowsFirst, cap, allowed, events, s)
    requires s == State([A], [] + [Trial(1, "b")], [], None, false)
    ensures Quiet(RowsFirst, cap, allowed, EMPTY, more) && Play(RowsFirst, cap, EMPTY, more).mismatch
  {
    var t;
    more, t := Then(RowsFirst, cap, allowed, events, s, StartJob(0));
    more, t := Then(RowsFirst, cap, allowed, more, t, WriteRow(0));
  }

  lemma FailsUnseen(order: ReadOrder, cap: nat, allowed: set<Kind>) returns (events: seq<Event>, s: State)
    requires cap > 0 && order != Snapshot && Failing in allowed
    ensures Reaches(order, cap, allowed, events, s) && s.rows == s.active == [] && s.pending == [A] && !s.mismatch
    ensures s.open == Reading(if order == RowsFirst then Some([]) else None,
                              Some([]), None)
  {
    events, s := FirstStarted(order, cap, allowed);
    One();
    events, s := Then(order, cap, allowed, events, s, Trigger("b"));
    events, s := Then(order, cap, allowed, events, s, ReadRows);
    events, s := Then(order, cap, allowed, events, s, ReadPending);
    events, s := ThenMoves(order, cap, allowed, events, s, FailJob(0));
  }

  /** A job that goes back to delayed after the pending jobs were read and before the active ones are. */
  lemma UnsafeWhenFailing(order: ReadOrder, cap: nat, allowed: set<Kind>) returns (events: seq<Event>)
    requires cap > 0 && order != Snapshot && Failing in allowed
    ensures Quiet(order, cap, allowed, EMPTY, events) && !Sane(cap, Play(order, cap, EMPTY, events))
  {
    var s;
    events, s := FailsUnseen(order, cap, allowed);
    events, s := Then(order, cap, allowed, events, s, ReadActive);
    events, s := Then(order, cap, allowed, events, s, ReadRows);
    assert s == State([], [A], [], Reading(Some([]), Some([]), Some([])), false);
    events, s := Collide(order, cap, allowed, events, s);
  }

  lemma StartsUnseen(order: ReadOrder, cap: nat, allowed: set<Kind>) returns (events: seq<Event>, s: State)
    requires cap > 0 && order != Snapshot && Starting in allowed
    ensures Reaches(order, cap, allowed, events, s) && s.rows == s.pending == [] && s.active == [A] && !s.mismatch
    ensures s.open == Reading(if order == RowsFirst then Some([]) else None,
                              None, Some([]))
  {
    events, s := First(order, cap, allowed);
    One();
    events, s := Then(order, cap, allowed, events, s, Trigger("b"));
    events, s := Then(order, cap, allowed, events, s, ReadRows);
    events, s := Then(order, cap, allowed, events, s, ReadActive);
    events, s := ThenMoves(order, cap, allowed, events, s, StartJob(0));
  }

  /** A job that is picked up after the active jobs were read and before the pending ones are. */
  lemma UnsafeWhenStarting(order: ReadOrder, cap: nat, allowed: set<Kind>) returns (events: seq<Event>)
    requires cap > 0 && order != Snapshot && Starting in allowed
    ensures Quiet(order, cap, allowed, EMPTY, events) && !Sane(cap, Play(order, cap, EMPTY, events))
  {
    var s;
    events, s := StartsUnseen(order, cap, allowed);
    events, s := Then(order, cap, allowed, events, s, ReadPending);
    events, s := Then(order, cap, allowed, events, s, ReadRows);
    assert s == State([], [], [A], Reading(Some([]), Some([]), Some([])), false);
    events, s := Collide(order, cap, allowed, events, s);
  }

  lemma QueueSeen(cap: nat, allowed: set<Kind>) returns (events: seq<Event>, s: State)
    requires cap > 0
    ensures Reaches(QueueFirst, cap, allowed, events, s)
    ensures s == State([A], [], [], Reading(None, Some([]), Some([])), false)
  {
    events, s := FirstStarted(QueueFirst, cap, allowed);
    One();
    events, s := Then(QueueFirst, cap, allowed, events, s, WriteRow(0));
    events, s := Then(QueueFirst, cap, allowed, events, s, FinishJob(0));
    events, s := Then(QueueFirst, cap, allowed, events, s, Trigger("b"));
    events, s := Then(QueueFirst, cap, allowed, events, s, ReadPending);
    events, s := Then(QueueFirst, cap, allowed, events, s, ReadActive);
  }

  /** Queue first: a row requeued and then deleted between the reads is in none of them. */
  lemma UnsafeWithQueueFirst(cap: nat, allowed: set<Kind>) returns (events: seq<Event>)
    requires cap > 0 && Deleting in allowed
    ensures Quiet(QueueFirst, cap, allowed, EMPTY, events) && !Sane(cap, Play(QueueFirst, cap, EMPTY, events))
  {
    var s;
    events, s := QueueSeen(cap, allowed);
    One();
    events, s := Then(QueueFirst, cap, allowed, events, s, Requeue(0));
    events, s := ThenMoves(QueueFirst, cap, allowed, events, s, DeleteRow(0));
    events, s := Then(QueueFirst, cap, allowed, events, s, ReadRows);
    assert s == State([], [A], [], Reading(Some([]), Some([]), Some([])), false);
    events, s := Collide(QueueFirst, cap, allowed, events, s);
  }

  /**
   Queue first: two jobs for one trial whose row is gone; one goes back to delayed
   after the pending jobs were read, the other finishes before the active ones are.
   */
  lemma UnsafeWhenFinishing(cap: nat, allowed: set<Kind>) returns (events: seq<Event>)
    requires cap > 0 && Finishing in allowed
    ensures Quiet(QueueFirst, cap, allowed, EMPTY, events) && !Sane(cap, Play(QueueFirst, cap, EMPTY, events))
  {
    var s;
    events, s := OneFails(cap, allowed);
    One();
    events, s := ThenMoves(QueueFirst, cap, allowed, events, s, FinishJob(0));
    events, s := Then(QueueFirst, cap, allowed, events, s, ReadActive);
    events, s := Then(QueueFirst, cap, allowed, events, s, ReadRows);
    assert s == State([], [A], [], Reading(Some([]), Some([]), Some([])), false);
    events, s := Collide(QueueFirst, cap, allowed, events, s);
  }

  lemma OneFails(cap: nat, allowed: set<Kind>) returns (events: seq<Event>, s: State)
    requires cap > 0
    ensures Reaches(QueueFirst, cap, allowed, events, s)
    ensures s == State([], [A], [A], Reading(None, Some([]), None), false)
  {
    events, s := TwoJobs(cap, allowed);
    assert Drop([A, A], 0) == [A];
    One();
    events, s := Then(QueueFirst, cap, allowed, events, s, Trigger("b"));
    events, s := Then(QueueFirst, cap, allowed, events, s, ReadPending);
    events, s := ThenMoves(QueueFirst, cap, allowed, events, s, FailJob(0));
  }

  lemma TwoJobs(cap: nat, allowed: set<Kind>) returns (events: seq<Event>, s: State)
    requires cap > 0
    ensures Reaches(QueueFirst, cap, allowed, events, s) && s == State([], [], [A, A], None, false)
  {
    events, s := FirstStarted(QueueFirst, cap, allowed);
    One();
    events, s := Then(QueueFirst, cap, allowed, events, s, WriteRow(0));
    events, s := Then(QueueFirst, cap, allowed, events, s, Requeue(0));
    events, s := Then(QueueFirst, cap, allowed, events, s, StartJob(0));
    events, s := Then(QueueFirst, cap, allowed, events, s, DeleteRow(0));
    assert [A] + [A] == [A, A];
  }

  // ----- the exact condition -----

  lemma {:induction false} NoTrialsAtCapZero(order: ReadOrder, s: State, events: seq<Event>)
    requires s.rows + (s.pending + s.active) == [] && !s.mismatch
    ensures Sane(0, Play(order, 0, s, events))
    decreases |events|
  {
    if events == [] {
      assert Owned(s) == Owned(EMPTY);
    } else {
      NoTrialsAtCapZero(order, Apply(order, 0, s, events[0]), events[1..]);
    }
  }

  lemma Unsafe(order: ReadOrder, cap: nat, allowed: set<Kind>) returns (events: seq<Event>)
    requires cap > 0 && !(allowed !! Harmful(order))
    ensures Quiet(order, cap, allowed, EMPTY, events) && !Sane(cap, Play(order, cap, EMPTY, events))
  {
    var kind :| kind in allowed && kind in Harmful(order);
    match kind
    case Finishing =>
      if order == RowsFirst {
        events := UnsafeWithRowsFirst(cap, allowed);
      } else {
        events := UnsafeWhenFinishing(cap, allowed);
      }
    case Failing => events := UnsafeWhenFailing(order, cap, allowed);
    case Starting => events := UnsafeWhenStarting(order, cap, allowed);
    case Deleting => events := UnsafeWithQueueFirst(cap, allowed);
  }

  /**
   Exactly which histories an order of reads can bear: those that hide no trial from an
   open dispatch in a harmful way. Whatever is hidden besides is harmless, and each
   harmful way alone is enough for a run that goes wrong.
   */
  lemma SafeExactly(order: ReadOrder, cap: nat, allowed: set<Kind>)
    ensures (forall events :: Quiet(order, cap, allowed, EMPTY, events) ==> Sane(cap, Play(order, cap, EMPTY, events)))
            <==> cap == 0 || order == Snapshot || allowed !! Harmful(order)
  {
    if cap == 0 || order == Snapshot || allowed !! Harmful(order) {
      forall events | Quiet(order, cap, allowed, EMPTY, events) ensures Sane(cap, Play(order, cap, EMPTY, events)) {
        if cap == 0 {
          NoTrialsAtCapZero(order, EMPTY, events);
        } else if order == Snapshot {
          AllocationIsSane(cap, events);
        } else {
          QuietKeeps(order, cap, allowed, EMPTY, events);
        }
      }
    } else {
      var events := Unsafe(order, cap, allowed);
    }
  }
}
