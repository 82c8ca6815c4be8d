/**
 The sweep that re-dispatches parked runs: resumeModelPool
 (backend/src/modules/provider-pool/rpd-resume.service.ts), with every point at
 which its process can die, and a queue that ignores a job id it has seen before.
 */
module ResumeSweep {
  import opened Collections
  import opened HoldService
  import opened HoldStore
  import opened Options

  datatype Status = Parked | Running | Settled

  datatype Run = Run(modelName: Option<string>, status: Status)

  /** A job id: the run it is for, and the stamp of the sweep. */
  datatype JobId = JobId(run: nat, stamp: string)

  /** The runs of one strategy, and every job id the queue has ever accepted, oldest first. */
  datatype Pool = Pool(runs: seq<Run>, jobs: seq<JobId>)

  function Add(jobs: seq<JobId>, id: JobId): seq<JobId> {
    if id in jobs then jobs else jobs + [id]
  }

  predicate Due(r: Run, held: set<string>) {
    r.status == Parked && r.modelName.Some? && r.modelName.value !in held
  }

  function Enqueue(p: Pool, i: nat, stamp: string): Pool {
    p.(jobs := Add(p.jobs, JobId(i, stamp)))
  }

  function Flip(p: Pool, i: nat): Pool
    requires i < |p.runs|
  {
    p.(runs := p.runs[i := p.runs[i].(status := Running)])
  }

  /** The sweep from run i on, when the process dies after `steps` more writes. */
  function Sweep(p: Pool, held: set<string>, stamp: string, i: nat, steps: nat): (q: Pool)
    requires i <= |p.runs|
    ensures |q.runs| == |p.runs|
    decreases |p.runs| - i
  {
    if i == |p.runs| then p
    else if !Due(p.runs[i], held) then Sweep(p, held, stamp, i + 1, steps)
    else if steps == 0 then p
    else if steps == 1 then Enqueue(p, i, stamp)
    else Sweep(Flip(Enqueue(p, i, stamp), i), held, stamp, i + 1, steps - 2)
  }

  /** What one run may look like after a sweep that died anywhere. */
  ghost predicate RunOk(p: Pool, q: Pool, held: set<string>, stamp: string, j: nat)
    requires j < |p.runs| == |q.runs|
  {
    || q.runs[j] == p.runs[j]
    || (Due(p.runs[j], held) && q.runs[j] == p.runs[j].(status := Running) && JobId(j, stamp) in q.jobs)
  }

  /** Job ids are only ever added, one per due run. */
  ghost predicate JobsOk(p: Pool, q: Pool, held: set<string>, stamp: string) {
    && p.jobs <= q.jobs
    && forall k :: |p.jobs| <= k < |q.jobs| ==>
                     && q.jobs[k].run < |p.runs| && Due(p.runs[q.jobs[k].run], held)
                     && q.jobs[k].stamp == stamp && q.jobs[k] !in p.jobs
  }

  lemma {:induction false} SweepKeeps(p: Pool, held: set<string>, stamp: string, i: nat, steps: nat) returns (q: Pool)
    requires i <= |p.runs|
    ensures q == Sweep(p, held, stamp, i, steps)
    ensures forall j :: 0 <= j < |p.runs| ==> RunOk(p, q, held, stamp, j)
    ensures forall j :: 0 <= j < i ==> q.runs[j] == p.runs[j]
    ensures JobsOk(p, q, held, stamp)
    decreases |p.runs| - i
  {
    q := Sweep(p, held, stamp, i, steps);
    if i < |p.runs| {
      if !Due(p.runs[i], held) {
        q := SweepKeeps(p, held, stamp, i + 1, steps);
      } else if steps > 1 {
        var e := Enqueue(p, i, stamp);
        var f := Flip(e, i);
        q := SweepKeeps(f, held, stamp, i + 1, steps - 2);
        assert JobId(i, stamp) in f.jobs && forall x :: x in f.jobs ==> x in q.jobs;
        forall j | 0 <= j < |p.runs| ensures RunOk(p, q, held, stamp, j) {
          assert RunOk(f, q, held, stamp, j);
        }
      }
    }
  }

  /**
   Enqueue before flip: wherever the sweep dies, a run it flipped to RUNNING was due
   (parked, its model known and not held) and its job was already in the queue; and
   when its job id was fresh, that job is a new one.
   */
  lemma FlippedRunsHaveJobs(p: Pool, held: set<string>, stamp: string, steps: nat, j: nat)
    requires j < |p.runs|
    ensures var q := Sweep(p, held, stamp, 0, steps);
            q.runs[j] != p.runs[j] ==>
              && Due(p.runs[j], held) && q.runs[j].status == Running && JobId(j, stamp) in q.jobs
              && |p.jobs| <= |q.jobs|
              && (JobId(j, stamp) !in p.jobs ==> JobId(j, stamp) in q.jobs[|p.jobs|..])
  {
    var q := SweepKeeps(p, held, stamp, 0, steps);
    assert RunOk(p, q, held, stamp, j);
    if JobId(j, stamp) in q.jobs {
      var k :| 0 <= k < |q.jobs| && q.jobs[k] == JobId(j, stamp);
      if k < |p.jobs| {
        assert q.jobs[k] == p.jobs[k];
      } else {
        assert q.jobs[k] == q.jobs[|p.jobs|..][k - |p.jobs|];
      }
    }
  }

  /**
   Exactly when a flipped run has a new job, in every pool and wherever the sweep dies:
   when its job id had not been used before.
   */
  lemma NewJobExactly(p: Pool, held: set<string>, stamp: string, steps: nat, j: nat)
    requires j < |p.runs|
    ensures var q := Sweep(p, held, stamp, 0, steps);
            && |p.jobs| <= |q.jobs|
            && (q.runs[j] != p.runs[j] ==> (JobId(j, stamp) in q.jobs[|p.jobs|..] <==> JobId(j, stamp) !in p.jobs))
  {
    FlippedRunsHaveJobs(p, held, stamp, steps, j);
    var q := SweepKeeps(p, held, stamp, 0, steps);
    assert forall k :: 0 <= k < |q.jobs| - |p.jobs| ==> q.jobs[|p.jobs|..][k] == q.jobs[k + |p.jobs|];
  }

  /** With enough steps, exactly the due runs end up running. */
  lemma {:induction false} SweepCompletes(p: Pool, held: set<string>, stamp: string, i: nat, steps: nat, j: nat)
    requires i <= j < |p.runs| && steps >= 2 * (|p.runs| - i)
    ensures Sweep(p, held, stamp, i, steps).runs[j]
            == if Due(p.runs[j], held) then p.runs[j].(status := Running) else p.runs[j]
    decreases |p.runs| - i
  {
    var next, left := p, steps;
    if Due(p.runs[i], held) {
      next, left := Flip(Enqueue(p, i, stamp), i), steps - 2;
    }
    if i == j {
      var q := SweepKeeps(next, held, stamp, i + 1, left);
    } else {
      SweepCompletes(next, held, stamp, i + 1, left, j);
    }
  }

  /** So a sweep that repeats its stamp flips a due run with no new job to execute it. */
  lemma RepeatedStampAddsNothing(p: Pool, held: set<string>, stamp: string, steps: nat, j: nat)
    requires j < |p.runs| && Due(p.runs[j], held) && steps >= 2 * |p.runs| && JobId(j, stamp) in p.jobs
    ensures var q := Sweep(p, held, stamp, 0, steps);
            && q.runs[j] == p.runs[j].(status := Running) != p.runs[j]
            && |p.jobs| <= |q.jobs| && JobId(j, stamp) !in q.jobs[|p.jobs|..]
  {
    SweepCompletes(p, held, stamp, 0, steps, j);
    NewJobExactly(p, held, stamp, steps, j);
  }

  /** Sweeping again with the same stamp after dying anywhere ends where one whole sweep would have. */
  lemma {:induction false} ResweepConverges(p: Pool, held: set<string>, stamp: string, i: nat, died: nat, steps: nat)
    requires i <= |p.runs| && steps >= 2 * (|p.runs| - i)
    ensures Sweep(Sweep(p, held, stamp, i, died), held, stamp, i, steps) == Sweep(p, held, stamp, i, steps)
    decreases |p.runs| - i
  {
    if i < |p.runs| {
      var half := Sweep(p, held, stamp, i, died);
      if !Due(p.runs[i], held) {
        var q := SweepKeeps(p, held, stamp, i + 1, died);
        ResweepConverges(p, held, stamp, i + 1, died, steps);
      } else if died == 1 {
        assert Enqueue(half, i, stamp) == half;
      } else if died > 1 {
        var f := Flip(Enqueue(p, i, stamp), i);
        var q := SweepKeeps(f, held, stamp, i + 1, died - 2);
        assert half == q && half.runs[i] == f.runs[i];
        ResweepConverges(f, held, stamp, i + 1, died - 2, steps - 2);
        MoreStepsSame(half, held, stamp, i + 1, steps - 2, steps);
      }
    }
  }

  lemma {:induction false} MoreStepsSame(p: Pool, held: set<string>, stamp: string, i: nat, a: nat, b: nat)
    requires i <= |p.runs| && a >= 2 * (|p.runs| - i) && b >= 2 * (|p.runs| - i)
    ensures Sweep(p, held, stamp, i, a) == Sweep(p, held, stamp, i, b)
    decreases |p.runs| - i
  {
    if i < |p.runs| {
      if Due(p.runs[i], held) {
        MoreStepsSame(Flip(Enqueue(p, i, stamp), i), held, stamp, i + 1, a - 2, b - 2);
      } else {
        MoreStepsSame(p, held, stamp, i + 1, a, b);
      }
    }
  }

  // ----- the sweep on the shared rows, queue and holds -----

  function DueRuns(runs: seq<Run>, held: set<string>, n: nat): set<nat> {
    set j: nat | j < n && j < |runs| && Due(runs[j], held)
  }

  /** Parked, and left so: no model, or a held one. */
  function SkippedRuns(runs: seq<Run>, held: set<string>, n: nat): set<nat> {
    set j: nat | j < n && j < |runs| && runs[j].status == Parked && !Due(runs[j], held)
  }

  lemma DueNext(runs: seq<Run>, held: set<string>, i: nat)
    requires i < |runs|
    ensures |DueRuns(runs, held, i + 1)| == |DueRuns(runs, held, i)| + if Due(runs[i], held) then 1 else 0
    ensures |DueRuns(runs, held, i + 1)| <= |DueRuns(runs, held, |runs|)|
  {
    var a, b := DueRuns(runs, held, i), DueRuns(runs, held, i + 1);
    if Due(runs[i], held) {
      assert b == a + {i};
    } else {
      assert b == a;
    }
    SubsetSize(b, DueRuns(runs, held, |runs|));
  }

  lemma SkippedNext(runs: seq<Run>, held: set<string>, i: nat)
    requires i < |runs|
    ensures |SkippedRuns(runs, held, i + 1)|
            == |SkippedRuns(runs, held, i)| + if runs[i].status == Parked && !Due(runs[i], held) then 1 else 0
  {
    var a, b := SkippedRuns(runs, held, i), SkippedRuns(runs, held, i + 1);
    if runs[i].status == Parked && !Due(runs[i], held) {
      assert b == a + {i};
    } else {
      assert b == a;
    }
  }

  /** The next sweep comes when the soonest live hold lifts, or after the longest delay allowed if that is sooner. */
  ghost predicate RearmedFor(b: Book, strategyName: string, now: int, cap: nat, delay: int) {
    && 0 <= delay <= cap
    && (forall m :: LiveAt(b, Key(strategyName, m), now).Some?
                    ==> now + delay <= LiveAt(b, Key(strategyName, m), now).value.resetAt)
    && (delay == cap || exists m :: LiveAt(b, Key(strategyName, m), now).Some?
                                    && now + delay == LiveAt(b, Key(strategyName, m), now).value.resetAt)
  }

  class RpdResumeService {
    var runs: seq<Run>
    var jobs: seq<JobId>
    const holds: RateLimitHoldService

    constructor (p: Pool, holds: RateLimitHoldService)
      ensures State() == p && this.holds == holds
    {
      runs, jobs, this.holds := p.runs, p.jobs, holds;
    }

    function State(): Pool
      reads this
    {
      Pool(runs, jobs)
    }

    /** The loop over the parked runs; `steps` is how many writes the process lives for. */
    method SweepRuns(held: set<string>, stamp: string, steps: nat) returns (done: bool, redispatched: nat, skipped: nat)
      modifies this
      ensures State() == Sweep(old(State()), held, stamp, 0, steps)
      ensures done <==> 2 * |DueRuns(old(runs), held, |runs|)| <= steps
      ensures done ==> redispatched == |DueRuns(old(runs), held, |runs|)|
      ensures done ==> skipped == |SkippedRuns(old(runs), held, |runs|)|
    {
      done, redispatched, skipped := false, 0, 0;
      var left := steps;
      ghost var start := State();
      for i := 0 to |runs|
        invariant !done && |runs| == |start.runs| && forall j :: i <= j < |runs| ==> runs[j] == start.runs[j]
        invariant redispatched == |DueRuns(start.runs, held, i)| && skipped == |SkippedRuns(start.runs, held, i)|
        invariant left == steps - 2 * redispatched
        invariant Sweep(State(), held, stamp, i, left) == Sweep(start, held, stamp, 0, steps)
      {
        var run := runs[i];
        DueNext(start.runs, held, i);
        SkippedNext(start.runs, held, i);
        if run.status != Parked {
          continue;
        }
        if run.modelName.None? || run.modelName.value in held {
          skipped := skipped + 1;
          continue;
        }
        if left == 0 {
          return;
        }
        jobs := Add(jobs, JobId(i, stamp));
        if left == 1 {
          return;
        }
        runs := runs[i := run.(status := Running)];
        left := left - 2;
        redispatched := redispatched + 1;
      }
      done := true;
    }

    /** The delay until the follow-up sweep. */
    method Rearm(strategyName: string, now: int, cap: nat) returns (delay: int)
      ensures RearmedFor(Holds(holds.rows), strategyName, now, cap, delay)
    {
      var soonest := holds.NextResetAt(strategyName, now);
      var untilReset := if soonest.Some? then soonest.value - now else cap;
      delay := if untilReset < 0 then 0 else untilReset;
      delay := if delay < cap then delay else cap;
    }

    /**
     The whole sweep, as caller p of the hold service: others may touch the holds
     between the find and the remove of its clean-up. `done` is false when the process
     dies before the sweep ends.
     */
    method ResumeModelPool(p: nat, strategyName: string, stamp: string, cap: nat, steps: nat,
                           now: int, between: seq<Timed>, later: int)
      returns (done: bool, cleared: set<string>, redispatched: nat, skipped: nat, rearmedInMs: Option<int>)
      requires p !in holds.clears && NotBy(p, between)
      modifies this, holds
      ensures holds.State()
              == Play(old(holds.State()),
                      [Timed(now, Find(p, Some(strategyName)))] + (between + [Timed(later, Remove(p))]))
      ensures var held := HeldModels(Holds(holds.rows), strategyName, later);
              && State() == Sweep(old(State()), held, stamp, 0, steps)
              && (done <==> 2 * |DueRuns(old(runs), held, |runs|)| <= steps)
              && (done ==> redispatched == |DueRuns(old(runs), held, |runs|)|)
              && (done ==> skipped == |SkippedRuns(old(runs), held, |runs|)|)
      ensures forall m :: m in cleared <==>
                exists k :: k in ExpiredRows(old(holds.rows), Some(strategyName), now) && k.modelName == Some(m)
      ensures rearmedInMs.Some? <==> done && skipped > 0
      ensures rearmedInMs.Some? ==> RearmedFor(Holds(holds.rows), strategyName, later, cap, rearmedInMs.value)
    {
      var clearedAccountWide;
      cleared, clearedAccountWide := holds.ClearExpired(p, Some(strategyName), now, between, later);
      var stillHeld := HeldModels(Holds(holds.rows), strategyName, later);
      done, redispatched, skipped := SweepRuns(stillHeld, stamp, steps);
      rearmedInMs := None;
      if done && skipped > 0 {
        var delay := Rearm(strategyName, later, cap);
        rearmedInMs := Some(delay);
      }
    }
  }
}
