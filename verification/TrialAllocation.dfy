/**
 Trial numbers across rows and queued jobs: triggerNextLlmTrial
 (backend/src/modules/strategy/strategy-dispatch.service.ts), the worker's
 loadOrCreateRun (backend/src/modules/strategy/strategy-run-store.service.ts), and
 everything that can happen between them, for one puzzle and one strategy.
 */
module TrialAllocation {
  import opened Collections
  import opened Options

  /** A trial number with the model it is for: a StrategyRun row, or a queued job. */
  datatype Trial = Trial(number: nat, model: string)

  // ----- triggerNextLlmTrial -----

  /** The trialModels map: later entries win. */
  function TrialModels(trials: seq<Trial>): map<nat, string> {
    if trials == [] then map[]
    else
      var last := trials[|trials| - 1];
      TrialModels(trials[..|trials| - 1])[last.number := last.model]
  }

  function TrialsOf(m: map<nat, string>, model: string): set<nat> {
    set n | n in m && m[n] == model
  }

  function MaxNumber(trials: seq<Trial>): nat {
    if trials == [] then 0
    else
      var rest := MaxNumber(trials[1..]);
      if trials[0].number > rest then trials[0].number else rest
  }

  lemma {:induction false} MaxNumberBounds(trials: seq<Trial>)
    ensures forall t :: t in trials ==> t.number <= MaxNumber(trials)
    ensures MaxNumber(trials) == 0 || exists t :: t in trials && t.number == MaxNumber(trials)
  {
    if trials != [] {
      MaxNumberBounds(trials[1..]);
      assert trials[0] in trials;
    }
  }

  predicate Has(trials: seq<Trial>, model: string) {
    exists i :: 0 <= i < |trials| && trials[i].model == model
  }

  datatype Verdict = AlreadyPending | CapReached | Queue(number: nat)

  function NextTrial(rows: seq<Trial>, pending: seq<Trial>, active: seq<Trial>, model: string, cap: nat): Verdict {
    var seen := rows + (pending + active);
    if Has(pending, model) then AlreadyPending
    else if |TrialsOf(TrialModels(seen), model)| >= cap then CapReached
    else Queue(MaxNumber(seen) + 1)
  }

  method TriggerNextLlmTrial(rows: seq<Trial>, pending: seq<Trial>, active: seq<Trial>, model: string, cap: nat)
    returns (verdict: Verdict)
    ensures verdict == NextTrial(rows, pending, active, model, cap)
  {
    if Has(pending, model) {
      return AlreadyPending;
    }
    var queued := pending + active;
    var trialModels := ReadTrialModels(rows, queued);
    var modelRunCount := |TrialsOf(trialModels, model)|;
    if modelRunCount >= cap {
      return CapReached;
    }
    var highest := MaxKey(trialModels);
    MaxKeyIsMaxNumber(rows + queued, highest);
    return Queue(highest + 1);
  }

  lemma OneMoreTrial(trials: seq<Trial>, i: nat)
    requires i < |trials|
    ensures TrialModels(trials[..i + 1]) == TrialModels(trials[..i])[trials[i].number := trials[i].model]
  {
    assert trials[..i + 1][..i] == trials[..i];
  }

  /** Rows first, then the queue keyed by trial number, so no trial is counted twice. */
  method ReadTrialModels(rows: seq<Trial>, queued: seq<Trial>) returns (trialModels: map<nat, string>)
    ensures trialModels == TrialModels(rows + queued)
  {
    ghost var seen := rows + queued;
    trialModels := map[];
    for i := 0 to |rows|
      invariant trialModels == TrialModels(seen[..i])
    {
      OneMoreTrial(seen, i);
      trialModels := trialModels[rows[i].number := rows[i].model];
    }
    for i := 0 to |queued|
      invariant trialModels == TrialModels(seen[..|rows| + i])
    {
      OneMoreTrial(seen, |rows| + i);
      trialModels := trialModels[queued[i].number := queued[i].model];
    }
    assert seen[..|seen|] == seen;
  }

  /** `Math.max(0, ...trialModels.keys())`. */
  method MaxKey(m: map<nat, string>) returns (highest: nat)
    ensures forall n :: n in m ==> n <= highest
    ensures highest == 0 || highest in m
  {
    highest := 0;
    var keys := m.Keys;
    while keys != {}
      invariant keys <= m.Keys
      invariant forall n :: n in m && n !in keys ==> n <= highest
      invariant highest == 0 || highest in m
      decreases keys
    {
      var k :| k in keys;
      if k > highest {
        highest := k;
      }
      keys := keys - {k};
    }
  }

  lemma MaxKeyIsMaxNumber(trials: seq<Trial>, highest: nat)
    requires forall n :: n in TrialModels(trials) ==> n <= highest
    requires highest == 0 || highest in TrialModels(trials)
    ensures highest == MaxNumber(trials)
  {
    KeysAreNumbers(trials);
    MaxNumberBounds(trials);
  }

  lemma {:induction false} KeysAreNumbers(trials: seq<Trial>)
    ensures forall t :: t in trials ==> t.number in TrialModels(trials)
    ensures forall n :: n in TrialModels(trials) ==> Trial(n, TrialModels(trials)[n]) in trials
  {
    if trials != [] {
      var front, last := trials[..|trials| - 1], trials[|trials| - 1];
      KeysAreNumbers(front);
      assert trials == front + [last];
    }
  }

  // ----- the queue, the rows, the workers -----

  /**
   How a dispatch reads rows and queue. The code reads the rows first, and then the
   pending and the active jobs in two reads that may come in either order.
   */
  datatype ReadOrder = Snapshot | RowsFirst | QueueFirst

  /** A dispatch holding the advisory lock, with what it has read so far. */
  datatype Dispatch = Dispatch(model: string, rows: Option<seq<Trial>>, pending: Option<seq<Trial>>,
                               active: Option<seq<Trial>>)

  /** `mismatch` is set when loadOrCreateRun throws for a row of another model. */
  datatype State = State(rows: seq<Trial>, pending: seq<Trial>, active: seq<Trial>, open: Option<Dispatch>,
                         mismatch: bool)

  const EMPTY := State([], [], [], None, false)

  datatype Event =
    | Trigger(model: string)  // takes the advisory lock (and, on a snapshot, reads and decides at once)
    | ReadRows
    | ReadPending
    | ReadActive
    | Complete                // decides on what was read, and releases the lock
    | StartJob(i: nat)        // a worker picks pending[i] up
    | WriteRow(i: nat)        // active[i] runs loadOrCreateRun
    | FinishJob(i: nat)       // active[i] is done, or has failed for good
    | FailJob(i: nat)         // active[i] goes back to delayed
    | DeleteRow(i: nat)
    | Requeue(i: nat)         // rows[i] is retried or resumed

  function Drop(s: seq<Trial>, i: nat): seq<Trial>
    requires i < |s|
  {
    s[..i] + s[i + 1..]
  }

  function Read(r: Option<seq<Trial>>): seq<Trial> {
    if r.Some? then r.value else []
  }

  function Seen(d: Dispatch): seq<Trial> {
    Read(d.rows) + (Read(d.pending) + Read(d.active))
  }

  predicate QueueTurn(order: ReadOrder, d: Dispatch) {
    order == QueueFirst || d.rows.Some?
  }

  predicate RowsTurn(order: ReadOrder, d: Dispatch) {
    order == RowsFirst || (d.pending.Some? && d.active.Some?)
  }

  function Enqueue(s: State, v: Verdict, model: string): State {
    if v.Queue? then s.(pending := s.pending + [Trial(v.number, model)]) else s
  }

  function RowFor(rows: seq<Trial>, number: nat): Option<Trial> {
    if rows == [] then None else if rows[0].number == number then Some(rows[0]) else RowFor(rows[1..], number)
  }

  function LoadOrCreate(s: State, job: Trial): State {
    match RowFor(s.rows, job.number)
    case Some(row) => if row.model != job.model then s.(mismatch := true) else s
    case None => s.(rows := s.rows + [job])
  }

  /** The steps of a dispatch that holds the lock. */
  function DispatchStep(order: ReadOrder, cap: nat, s: State, d: Dispatch, e: Event): State {
    if e.ReadRows? && d.rows.None? && RowsTurn(order, d) then s.(open := Some(d.(rows := Some(s.rows))))
    else if e.ReadPending? && d.pending.None? && QueueTurn(order, d)
    then s.(open := Some(d.(pending := Some(s.pending))))
    else if e.ReadActive? && d.active.None? && QueueTurn(order, d)
    then s.(open := Some(d.(active := Some(s.active))))
    else if e.Complete? && d.rows.Some? && d.pending.Some? && d.active.Some?
    then Enqueue(s.(open := None), NextTrial(Read(d.rows), Read(d.pending), Read(d.active), d.model, cap), d.model)
    else s
  }

  /** The steps of the workers, and of whoever deletes, retries and resumes. */
  function WorkStep(s: State, e: Event): State {
    match e
    case StartJob(i) =>
      if i < |s.pending| then s.(pending := Drop(s.pending, i), active := s.active + [s.pending[i]]) else s
    case WriteRow(i) => if i < |s.active| then LoadOrCreate(s, s.active[i]) else s
    case FinishJob(i) => if i < |s.active| then s.(active := Drop(s.active, i)) else s
    case FailJob(i) =>
      if i < |s.active| then s.(active := Drop(s.active, i), pending := s.pending + [s.active[i]]) else s
    case DeleteRow(i) => if i < |s.rows| then s.(rows := Drop(s.rows, i)) else s
    case Requeue(i) => if i < |s.rows| then s.(pending := s.pending + [s.rows[i]]) else s
    case _ => s
  }

  predicate IsWork(e: Event) {
    e.StartJob? || e.WriteRow? || e.FinishJob? || e.FailJob? || e.DeleteRow? || e.Requeue?
  }

  function Apply(order: ReadOrder, cap: nat, s: State, e: Event): State {
    if IsWork(e) then WorkStep(s, e)
    else if e.Trigger? then
      if s.open.Some? then s
      else if order == Snapshot then Enqueue(s, NextTrial(s.rows, s.pending, s.active, e.model, cap), e.model)
      else s.(open := Some(Dispatch(e.model, None, None, None)))
    else if s.open.Some? then DispatchStep(order, cap, s, s.open.value, e)
    else s
  }

  function Play(order: ReadOrder, cap: nat, s: State, events: seq<Event>): State
    decreases |events|
  {
    if events == [] then s else Play(order, cap, Apply(order, cap, s, events[0]), events[1..])
  }

  // ----- what every run keeps -----

  function Owned(s: State): set<Trial> {
    set t | t in s.rows + (s.pending + s.active)
  }

  ghost predicate OneOwner(owned: set<Trial>) {
    forall a, b :: a in owned && b in owned && a.number == b.number ==> a == b
  }

  function NumbersOf(owned: set<Trial>, model: string): set<nat> {
    set t | t in owned && t.model == model :: t.number
  }

  ghost predicate WithinCap(owned: set<Trial>, cap: nat) {
    forall model: string :: |NumbersOf(owned, model)| <= cap
  }

  ghost predicate Sane(cap: nat, s: State) {
    OneOwner(Owned(s)) && WithinCap(Owned(s), cap) && !s.mismatch
  }

  lemma {:induction false} RowForMeans(rows: seq<Trial>, number: nat)
    ensures match RowFor(rows, number)
            case Some(row) => row in rows && row.number == number
            case None => forall t :: t in rows ==> t.number != number
  {
    if rows != [] && rows[0].number != number {
      RowForMeans(rows[1..], number);
    }
  }

  /** Dropping trials, or moving them between rows and queue, loses nothing. */
  lemma Shrink(cap: nat, owned: set<Trial>, next: set<Trial>)
    requires OneOwner(owned) && WithinCap(owned, cap) && next <= owned
    ensures OneOwner(next) && WithinCap(next, cap)
  {
    forall model: string ensures |NumbersOf(next, model)| <= cap {
      SubsetSize(NumbersOf(next, model), NumbersOf(owned, model));
    }
  }

  lemma CountedAtLeast(owned: set<Trial>, seen: seq<Trial>, model: string)
    requires OneOwner(set t | t in seen) && forall t :: t in owned ==> t in seen
    ensures |NumbersOf(owned, model)| <= |TrialsOf(TrialModels(seen), model)|
  {
    KeysAreNumbers(seen);
    var m := TrialModels(seen);
    forall t | t in owned && t.model == model ensures t.number in TrialsOf(m, model) {
      assert Trial(t.number, m[t.number]) in seen;
    }
    SubsetSize(NumbersOf(owned, model), TrialsOf(m, model));
  }

  lemma NumbersWith(owned: set<Trial>, added: Trial, model: string)
    ensures NumbersOf(owned + {added}, model)
            == NumbersOf(owned, model) + if added.model == model then {added.number} else {}
  {
  }

  /** What a dispatch that sees no number under two models answers, and with which number. */
  lemma VerdictExactly(rows: seq<Trial>, pending: seq<Trial>, active: seq<Trial>, model: string, cap: nat)
    requires OneOwner(set t | t in rows + (pending + active))
    ensures var seen := rows + (pending + active);
            var v := NextTrial(rows, pending, active, model, cap);
            && (v == AlreadyPending <==> exists t :: t in pending && t.model == model)
            && (v == CapReached <==> v != AlreadyPending && |NumbersOf((set t | t in seen), model)| >= cap)
            && (v.Queue? ==>
                  && (forall t :: t in seen ==> t.number < v.number)
                  && (v.number == 1 || exists t :: t in seen && t.number + 1 == v.number))
  {
    var seen := rows + (pending + active);
    KeysAreNumbers(seen);
    MaxNumberBounds(seen);
    var m, owned := TrialModels(seen), set t | t in seen;
    forall n ensures n in TrialsOf(m, model) <==> n in NumbersOf(owned, model) {
      if n in m && m[n] == model {
        assert Trial(n, model) in owned;
      }
    }
    assert TrialsOf(m, model) == NumbersOf(owned, model);
    if t :| t in pending && t.model == model {
      assert Has(pending, model);
    }
  }

  /** When everything owned was seen, the number handed out is fresh and the model below its cap. */
  lemma Grow(cap: nat, owned: set<Trial>, seen: seq<Trial>, model: string) returns (next: set<Trial>)
    requires OneOwner(owned) && WithinCap(owned, cap)
    requires OneOwner(set t | t in seen) && forall t :: t in owned ==> t in seen
    requires |TrialsOf(TrialModels(seen), model)| < cap
    ensures next == owned + {Trial(MaxNumber(seen) + 1, model)}
    ensures OneOwner(next) && WithinCap(next, cap)
  {
    var added := Trial(MaxNumber(seen) + 1, model);
    next := owned + {added};
    MaxNumberBounds(seen);
    CountedAtLeast(owned, seen, model);
    forall x: string ensures |NumbersOf(next, x)| <= cap {
      NumbersWith(owned, added, x);
    }
  }

  /** Every step but a dispatch keeps or shrinks what is owned, and never meets a foreign row. */
  lemma WorkerStep(cap: nat, s: State, e: Event) returns (t: State)
    requires Sane(cap, s) && IsWork(e)
    ensures t == WorkStep(s, e) && Sane(cap, t) && Owned(t) <= Owned(s) && t.open == s.open
  {
    t := WorkStep(s, e);
    assert Owned(t) <= Owned(s) && !t.mismatch by {
      match e
      case StartJob(i) => if i < |s.pending| { DropKeeps(s.pending, i); }
      case WriteRow(i) => if i < |s.active| { RowForMeans(s.rows, s.active[i].number); }
      case FinishJob(i) => if i < |s.active| { DropKeeps(s.active, i); }
      case FailJob(i) => if i < |s.active| { DropKeeps(s.active, i); }
      case DeleteRow(i) => if i < |s.rows| { DropKeeps(s.rows, i); }
      case Requeue(i) =>
    }
    Shrink(cap, Owned(s), Owned(t));
  }

  lemma DropKeeps(s: seq<Trial>, i: nat)
    requires i < |s|
    ensures forall t :: t in s <==> t in Drop(s, i) || t == s[i]
  {
    assert s == s[..i] + [s[i]] + s[i + 1..];
  }

  lemma SnapshotDispatch(cap: nat, s: State, model: string) returns (t: State)
    requires Sane(cap, s) && s.open.None?
    ensures t == Apply(Snapshot, cap, s, Trigger(model)) && Sane(cap, t) && t.open.None?
  {
    t := Apply(Snapshot, cap, s, Trigger(model));
    var v := NextTrial(s.rows, s.pending, s.active, model, cap);
    if v.Queue? {
      var next := Grow(cap, Owned(s), s.rows + (s.pending + s.active), model);
      assert Owned(t) == Owned(s) + {Trial(v.number, model)};
    }
  }

  lemma {:induction false} SnapshotKeeps(cap: nat, s: State, events: seq<Event>)
    requires Sane(cap, s) && s.open.None?
    ensures Sane(cap, Play(Snapshot, cap, s, events))
    decreases |events|
  {
    if events != [] {
      var t := s;
      if events[0].Trigger? {
        t := SnapshotDispatch(cap, s, events[0].model);
      } else if IsWork(events[0]) {
        t := WorkerStep(cap, s, events[0]);
      }
      SnapshotKeeps(cap, t, events[1..]);
    }
  }

  /**
   Trial allocation: when a dispatch sees rows and queue as they are at one moment,
   every trial number has one model, every model is within its cap, and
   loadOrCreateRun never meets a row of another model - over every interleaving.
   */
  lemma AllocationIsSane(cap: nat, events: seq<Event>)
    ensures Sane(cap, Play(Snapshot, cap, EMPTY, events))
  {
    SnapshotKeeps(cap, EMPTY, events);
  }

  /**
   One decision, on whatever was read: it goes wrong exactly when the number handed
   out is owned by another model, or the model's owned numbers already fill its cap.
   */
  lemma CompleteExactly(order: ReadOrder, cap: nat, s: State, d: Dispatch)
    requires Sane(cap, s) && s.open == Some(d) && d.rows.Some? && d.pending.Some? && d.active.Some?
    ensures var v := NextTrial(Read(d.rows), Read(d.pending), Read(d.active), d.model, cap);
            Sane(cap, Apply(order, cap, s, Complete)) <==>
            (v.Queue? ==>
               && (forall t :: t in Owned(s) && t.number == v.number ==> t.model == d.model)
               && |NumbersOf(Owned(s), d.model) + {v.number}| <= cap)
  {
    var v := NextTrial(Read(d.rows), Read(d.pending), Read(d.active), d.model, cap);
    var t := Apply(order, cap, s, Complete);
    if v.Queue? {
      var added := Trial(v.number, d.model);
      assert Owned(t) == Owned(s) + {added};
      forall x: string
        ensures NumbersOf(Owned(t), x) == NumbersOf(Owned(s), x) + if x == d.model then {v.number} else {}
      {
        NumbersWith(Owned(s), added, x);
      }
      forall x: string | x != d.model ensures |NumbersOf(Owned(t), x)| <= cap {
        assert NumbersOf(Owned(t), x) == NumbersOf(Owned(s), x);
      }
      assert NumbersOf(Owned(t), d.model) == NumbersOf(Owned(s), d.model) + {v.number};
      assert added in Owned(t);
    } else {
      assert Owned(t) == Owned(s);
    }
  }

  // ----- reads that are not one snapshot -----

  /** The dispatch has read the trial, or would still read it where it is now. */
  predicate Covered(s: State, d: Dispatch, t: Trial) {
    || t in Seen(d)
    || (d.rows.None? && t in s.rows) || (d.pending.None? && t in s.pending) || (d.active.None? && t in s.active)
  }

  datatype Kind = Finishing | Failing | Starting | Deleting

  /** The trial a step moves out of a place, and how. */
  function Moved(s: State, e: Event): Option<(Trial, Kind)> {
    match e
    case FinishJob(i) => if i < |s.active| then Some((s.active[i], Finishing)) else None
    case FailJob(i) => if i < |s.active| then Some((s.active[i], Failing)) else None
    case StartJob(i) => if i < |s.pending| then Some((s.pending[i], Starting)) else None
    case DeleteRow(i) => if i < |s.rows| then Some((s.rows[i], Deleting)) else None
    case _ => None
  }

  /**
   A step hides a trial from an open dispatch: the trial was not read, and where the
   step leaves it no read to come will find it.
   */
  predicate Hides(s: State, e: Event, kind: Kind) {
    && s.open.Some? && Moved(s, e).Some? && Moved(s, e).value.1 == kind
    && var t := Moved(s, e).value.0;
       t in Owned(WorkStep(s, e)) && !Covered(WorkStep(s, e), s.open.value, t)
  }

  /** No step hides a trial, except in the ways allowed. */
  ghost predicate Quiet(order: ReadOrder, cap: nat, allowed: set<Kind>, s: State, events: seq<Event>)
    decreases |events|
  {
    events != [] ==>
      && (forall kind :: Hides(s, events[0], kind) ==> kind in allowed)
      && Quiet(order, cap, allowed, Apply(order, cap, s, events[0]), events[1..])
  }

  /** Everything owned is covered, and what was read names no second owner. */
  ghost predicate Tracked(s: State) {
    s.open.Some? ==>
      && (forall t :: t in Owned(s) ==> Covered(s, s.open.value, t))
      && OneOwner(Owned(s) + set t | t in Seen(s.open.value))
  }

  /** A worker's step loses track of a trial exactly when it hides one. */
  lemma HidesExactly(cap: nat, s: State, e: Event) returns (t: State)
    requires Sane(cap, s) && Tracked(s) && IsWork(e)
    ensures t == WorkStep(s, e) && Sane(cap, t)
    ensures Tracked(t) <==> forall kind :: !Hides(s, e, kind)
  {
    t := WorkerStep(cap, s, e);
    if s.open.Some? {
      var d := s.open.value;
      forall u | u in Owned(t) && (Moved(s, e).None? || u != Moved(s, e).value.0) ensures Covered(t, d, u) {
        assert Covered(s, d, u);
        MovesOne(s, e, u);
      }
      if Moved(s, e).Some? {
        var kind := Moved(s, e).value.1;
        assert Hides(s, e, kind) <==> Moved(s, e).value.0 in Owned(t) && !Covered(t, d, Moved(s, e).value.0);
      }
    }
  }

  /** A step takes no other trial out of any place. */
  lemma MovesOne(s: State, e: Event, u: Trial)
    requires IsWork(e) && (Moved(s, e).None? || u != Moved(s, e).value.0)
    ensures var t := WorkStep(s, e);
            (u in s.rows ==> u in t.rows) && (u in s.pending ==> u in t.pending) && (u in s.active ==> u in t.active)
  {
    match e
    case StartJob(i) => if i < |s.pending| { DropKeeps(s.pending, i); }
    case FinishJob(i) => if i < |s.active| { DropKeeps(s.active, i); }
    case FailJob(i) => if i < |s.active| { DropKeeps(s.active, i); }
    case DeleteRow(i) => if i < |s.rows| { DropKeeps(s.rows, i); }
    case _ =>
  }

  lemma TrackedComplete(order: ReadOrder, cap: nat, s: State, d: Dispatch) returns (t: State)
    requires Sane(cap, s) && Tracked(s) && s.open == Some(d)
    ensures t == Apply(order, cap, s, Complete) && Sane(cap, t) && Tracked(t)
  {
    t := Apply(order, cap, s, Complete);
    if d.rows.Some? && d.pending.Some? && d.active.Some? {
      var v := NextTrial(Read(d.rows), Read(d.pending), Read(d.active), d.model, cap);
      if v.Queue? {
        var next := Grow(cap, Owned(s), Seen(d), d.model);
        assert Owned(t) == Owned(s) + {Trial(v.number, d.model)};
      } else {
        assert Owned(t) == Owned(s);
      }
    }
  }

  lemma TrackedRead(order: ReadOrder, cap: nat, s: State, e: Event) returns (t: State)
    requires Sane(cap, s) && Tracked(s) && order != Snapshot && !IsWork(e) && e != Complete
    ensures t == Apply(order, cap, s, e) && Sane(cap, t) && Tracked(t)
  {
    t := Apply(order, cap, s, e);
    assert Owned(t) == Owned(s);
    if t.open.Some? {
      assert forall u :: u in Seen(t.open.value) ==> (s.open.Some? && u in Seen(s.open.value)) || u in Owned(s);
    }
  }

  // ----- the ways of hiding a trial that matter -----

  /** A row deleted while the rows are still to be read is never hidden: nothing was read before them. */
  function Harmful(order: ReadOrder): set<Kind> {
    match order
    case Snapshot => {}
    case RowsFirst => {Finishing, Failing, Starting}
    case QueueFirst => {Finishing, Failing, Starting, Deleting}
  }

  predicate InTurn(order: ReadOrder, s: State) {
    order == RowsFirst && s.open.Some? && s.open.value.rows.None? ==>
      s.open.value.pending.None? && s.open.value.active.None?
  }

  /** While nothing was read, a deleted row whose trial is still queued will be read there. */
  lemma DeletedIsCovered(s: State, d: Dispatch, i: nat)
    requires i < |s.rows| && Covered(s, d, s.rows[i]) && s.rows[i] in Owned(WorkStep(s, DeleteRow(i)))
    requires d.rows.None? ==> d.pending.None? && d.active.None?
    ensures Covered(WorkStep(s, DeleteRow(i)), d, s.rows[i])
  {
  }

  lemma OnlyHarmHides(order: ReadOrder, s: State, e: Event, kind: Kind)
    requires order != Snapshot && Tracked(s) && InTurn(order, s) && Hides(s, e, kind)
    ensures kind in Harmful(order)
  {
    if order == RowsFirst && e.DeleteRow? {
      DeletedIsCovered(s, s.open.value, e.i);
    }
  }

  /**
   Reads in either order keep the allocation sane over every history that hides trials
   in harmless ways at most.
   */
  lemma {:induction false} QuietKeeps(order: ReadOrder, cap: nat, allowed: set<Kind>, s: State, events: seq<Event>)
    requires order != Snapshot && allowed !! Harmful(order)
    requires Sane(cap, s) && Tracked(s) && InTurn(order, s) && Quiet(order, cap, allowed, s, events)
    ensures Sane(cap, Play(order, cap, s, events))
    decreases |events|
  {
    if events != [] {
      var t;
      if IsWork(events[0]) {
        forall kind | Hides(s, events[0], kind) ensures false {
          OnlyHarmHides(order, s, events[0], kind);
        }
        t := HidesExactly(cap, s, events[0]);
      } else if events[0] == Complete {
        t := s;
        if s.open.Some? {
          t := TrackedComplete(order, cap, s, s.open.value);
        }
      } else {
        t := TrackedRead(order, cap, s, events[0]);
      }
      QuietKeeps(order, cap, allowed, t, events[1..]);
    }
  }
}
