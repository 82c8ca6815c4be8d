/**
 The dispatch ticks bounded by counts: dispatchRoundRobin, runUntilHeldTick and
 runAccountBudgetTick (backend/src/modules/provider-pool/free-dispatch.service.ts).
 */
module FreeDispatch {
  import opened Collections
  import opened Options

  /** What comes of looking up a puzzle for a model and queueing a trial on it. */
  datatype Attempt = Queued | LookupFailed | NoPuzzle | EnqueueFailed

  /** The outcome of the n-th attempt of a tick, for whichever model it is. */
  type Attempts = (nat, string) -> Attempt

  /** A set of excluded models that is smaller than a list of distinct models leaves one out. */
  lemma OneIsLeft(models: seq<string>, excluded: set<string>)
    requires Distinct(models) && |excluded| < |models|
    ensures exists m :: m in models && m !in excluded
  {
    ElemsSize(models);
    if forall m :: m in models ==> m in excluded {
      SubsetSize(Elems(models), excluded);
    }
  }

  lemma NoneIsLeft(models: seq<string>, excluded: set<string>)
    requires Distinct(models) && |excluded| >= |models| && excluded <= Elems(models)
    ensures forall m :: m in models ==> m in excluded
  {
    ElemsSize(models);
    SubsetSize(excluded, Elems(models));
    if m :| m in models && m !in excluded {
      SubsetSize(excluded + {m}, Elems(models));
    }
  }

  // ----- the greedy choice -----

  /** The first of the least allocated models that are not excluded, or nothing when all are. */
  method LeastAllocatedModel(models: seq<string>, allocation: map<string, nat>, excluded: set<string>)
    returns (best: Option<string>)
    requires forall m :: m in models ==> m in allocation
    ensures best.None? <==> forall m :: m in models ==> m in excluded
    ensures best.Some? ==>
              && best.value in models && best.value !in excluded
              && forall m :: m in models && m !in excluded ==> allocation[best.value] <= allocation[m]
    ensures best.Some? ==>
              exists i :: 0 <= i < |models| && models[i] == best.value
                          && forall j :: 0 <= j < i && models[j] !in excluded
                                         ==> allocation[best.value] < allocation[models[j]]
  {
    best := None;
    ghost var at := 0;
    for i := 0 to |models|
      invariant best.None? ==> forall j :: 0 <= j < i ==> models[j] in excluded
      invariant best.Some? ==>
          && 0 <= at < i && models[at] == best.value && best.value !in excluded
          && (forall j :: 0 <= j < i && models[j] !in excluded ==> allocation[best.value] <= allocation[models[j]])
          && (forall j :: 0 <= j < at && models[j] !in excluded ==> allocation[best.value] < allocation[models[j]])
    {
      var model := models[i];
      if model in excluded {
        continue;
      }
      if best.None? || allocation[model] < allocation[best.value] {
        best := Some(model);
        at := i;
      }
    }
  }

  /** How often a model was queued among the attempts tried so far. */
  function QueuedFor(tried: seq<string>, attempt: Attempts, model: string): nat
    decreases |tried|
  {
    if tried == [] then 0
    else
      var n := |tried| - 1;
      QueuedFor(tried[..n], attempt, model) + if tried[n] == model && attempt(n, model) == Queued then 1 else 0
  }

  function QueuedIn(tried: seq<string>, attempt: Attempts): nat
    decreases |tried|
  {
    if tried == [] then 0
    else
      var n := |tried| - 1;
      QueuedIn(tried[..n], attempt) + if attempt(n, tried[n]) == Queued then 1 else 0
  }

  function FailedIn(tried: seq<string>, attempt: Attempts): set<string>
    decreases |tried|
  {
    if tried == [] then {}
    else
      var n := |tried| - 1;
      FailedIn(tried[..n], attempt) + if attempt(n, tried[n]) == Queued then {} else {tried[n]}
  }

  /** No model that got a trial is more than one ahead of a model still in play. */
  ghost predicate Levelled(initial: map<string, nat>, allocation: map<string, nat>, excluded: set<string>) {
    && allocation.Keys == initial.Keys
    && forall a, b :: a in initial && b in initial && a != b && allocation[a] > initial[a] && b !in excluded
                      ==> allocation[a] <= allocation[b] + 1
  }

  /** Between two models that never failed, the gap ends at most one, or no wider than it began. */
  ghost predicate Fair(initial: map<string, nat>, allocation: map<string, nat>, excluded: set<string>) {
    && allocation.Keys == initial.Keys
    && forall a, b :: a in initial && b in initial && a !in excluded && b !in excluded ==>
                        || allocation[a] <= allocation[b] + 1
                        || allocation[a] + initial[b] <= allocation[b] + initial[a]
  }

  lemma LevelledIsFair(initial: map<string, nat>, allocation: map<string, nat>, excluded: set<string>)
    requires Levelled(initial, allocation, excluded)
    requires forall m :: m in initial ==> initial[m] <= allocation[m]
    ensures Fair(initial, allocation, excluded)
  {
  }

  /** The allocation is the initial one plus what was queued. */
  ghost predicate Accounted(initial: map<string, nat>, allocation: map<string, nat>, tried: seq<string>,
                            attempt: Attempts) {
    && allocation.Keys == initial.Keys
    && forall m :: m in initial ==> allocation[m] == initial[m] + QueuedFor(tried, attempt, m)
  }

  lemma TriedOne(tried: seq<string>, attempt: Attempts, model: string)
    ensures QueuedIn(tried + [model], attempt)
            == QueuedIn(tried, attempt) + if attempt(|tried|, model) == Queued then 1 else 0
    ensures FailedIn(tried + [model], attempt)
            == FailedIn(tried, attempt) + if attempt(|tried|, model) == Queued then {} else {model}
    ensures forall m :: QueuedFor(tried + [model], attempt, m)
                        == QueuedFor(tried, attempt, m)
                           + if model == m && attempt(|tried|, m) == Queued then 1 else 0
  {
    assert (tried + [model])[..|tried|] == tried;
  }

  /** Queueing a trial for a least allocated model in play keeps the books and the balance. */
  lemma QueueOne(initial: map<string, nat>, allocation: map<string, nat>, excluded: set<string>, tried: seq<string>,
                 attempt: Attempts, model: string) returns (next: map<string, nat>)
    requires Accounted(initial, allocation, tried, attempt) && Levelled(initial, allocation, excluded)
    requires model in initial && attempt(|tried|, model) == Queued
    requires forall m :: m in initial && m !in excluded ==> allocation[model] <= allocation[m]
    ensures next == allocation[model := allocation[model] + 1]
    ensures Accounted(initial, next, tried + [model], attempt) && Levelled(initial, next, excluded)
  {
    next := allocation[model := allocation[model] + 1];
    TriedOne(tried, attempt, model);
  }

  datatype Round = Round(dispatched: nat, exhausted: set<string>, allocation: map<string, nat>, threw: bool)

  /** The books of a round: what was queued, who failed, and the balance so far. */
  ghost predicate RoundOk(candidates: seq<string>, initial: map<string, nat>, attempt: Attempts, r: Round,
                          tried: seq<string>) {
    && r.dispatched == QueuedIn(tried, attempt)
    && r.exhausted == FailedIn(tried, attempt) && r.exhausted <= Elems(candidates)
    && Elems(tried) <= Elems(candidates)
    && Accounted(initial, r.allocation, tried, attempt)
    && Levelled(initial, r.allocation, r.exhausted)
  }

  function AfterAttempt(r: Round, model: string, outcome: Attempt): Round
    requires model in r.allocation
  {
    if outcome == Queued
    then r.(dispatched := r.dispatched + 1, allocation := r.allocation[model := r.allocation[model] + 1])
    else r.(exhausted := r.exhausted + {model})
  }

  lemma AttemptKeeps(candidates: seq<string>, initial: map<string, nat>, attempt: Attempts, r: Round,
                     tried: seq<string>, model: string)
    requires initial.Keys == Elems(candidates) && RoundOk(candidates, initial, attempt, r, tried)
    requires model in candidates
    requires forall m :: m in candidates && m !in r.exhausted ==> r.allocation[model] <= r.allocation[m]
    ensures RoundOk(candidates, initial, attempt, AfterAttempt(r, model, attempt(|tried|, model)), tried + [model])
  {
    TriedOne(tried, attempt, model);
    if attempt(|tried|, model) == Queued {
      var next := QueueOne(initial, r.allocation, r.exhausted, tried, attempt, model);
    }
  }

  /**
   dispatchRoundRobin. `tried` lists the model of every attempt; the allocation map's
   keys are the candidate models.
   */
  method DispatchRoundRobin(candidates: seq<string>, initial: map<string, nat>, maxNewTrials: nat, attempt: Attempts)
    returns (r: Round, tried: seq<string>)
    requires initial.Keys == Elems(candidates)
    ensures Distinct(candidates) ==> !r.threw
    ensures r.dispatched == QueuedIn(tried, attempt) && r.dispatched <= maxNewTrials
    ensures r.exhausted == FailedIn(tried, attempt) && r.exhausted <= Elems(candidates)
    ensures Elems(tried) <= Elems(candidates)
    ensures !r.threw ==> r.dispatched == maxNewTrials || |r.exhausted| >= |candidates|
    ensures Accounted(initial, r.allocation, tried, attempt)
    ensures Levelled(initial, r.allocation, r.exhausted) && Fair(initial, r.allocation, r.exhausted)
  {
    r, tried := Round(0, {}, initial, false), [];
    while r.dispatched < maxNewTrials && |r.exhausted| < |candidates|
      invariant RoundOk(candidates, initial, attempt, r, tried) && !r.threw && r.dispatched <= maxNewTrials
      decreases maxNewTrials - r.dispatched, Elems(candidates) - r.exhausted
    {
      if Distinct(candidates) {
        OneIsLeft(candidates, r.exhausted);
      }
      var best := LeastAllocatedModel(candidates, r.allocation, r.exhausted);
      if best.None? {
        LevelledIsFair(initial, r.allocation, r.exhausted);
        r := r.(threw := true);
        return;
      }
      var model := best.value;
      AttemptKeeps(candidates, initial, attempt, r, tried, model);
      r := AfterAttempt(r, model, attempt(|tried|, model));
      tried := tried + [model];
    }
    LevelledIsFair(initial, r.allocation, r.exhausted);
  }

  // ----- ticks bounded by counts -----

  function Total(counts: seq<(string, nat)>): nat {
    if counts == [] then 0 else counts[0].1 + Total(counts[1..])
  }

  /** `[...inFlight.values()].reduce((sum, count) => sum + count, 0)`. */
  method CountInFlight(inFlight: seq<(string, nat)>) returns (total: nat)
    ensures total == Total(inFlight)
  {
    total := 0;
    for i := 0 to |inFlight|
      invariant total + Total(inFlight[i..]) == Total(inFlight)
    {
      assert inFlight[i..][1..] == inFlight[i + 1..];
      total := total + inFlight[i].1;
    }
  }

  function Min(a: int, b: int): int {
    if a < b then a else b
  }

  function Without(models: seq<string>, held: set<string>): seq<string> {
    if models == [] then []
    else (if models[0] in held then [] else [models[0]]) + Without(models[1..], held)
  }

  lemma {:induction false} WithoutMeans(models: seq<string>, held: set<string>)
    ensures forall m :: m in Without(models, held) <==> m in models && m !in held
    ensures Distinct(models) ==> Distinct(Without(models, held))
  {
    if models != [] {
      WithoutMeans(models[1..], held);
      if models[0] !in held {
        assert Without(models, held) == [models[0]] + Without(models[1..], held);
      }
    }
  }

  /** What a model had at first, and what a round gave it. */
  function ShareOf(initial: map<string, nat>, tried: seq<string>, attempt: Attempts, m: string): nat
    requires m in initial
  {
    initial[m] + QueuedFor(tried, attempt, m)
  }

  /** Between two models that did not fail, a round ends with a gap of at most one, or no wider than before. */
  ghost predicate Shared(initial: map<string, nat>, tried: seq<string>, attempt: Attempts) {
    forall a, b :: a in initial && b in initial && a !in FailedIn(tried, attempt) && b !in FailedIn(tried, attempt) ==>
                     || ShareOf(initial, tried, attempt, a) <= ShareOf(initial, tried, attempt, b) + 1
                     || QueuedFor(tried, attempt, a) <= QueuedFor(tried, attempt, b)
  }

  lemma FairIsShared(initial: map<string, nat>, allocation: map<string, nat>, tried: seq<string>, attempt: Attempts)
    requires Accounted(initial, allocation, tried, attempt)
    requires Fair(initial, allocation, FailedIn(tried, attempt))
    ensures Shared(initial, tried, attempt)
  {
  }

  /** A round over models that are all different: it never throws, and it stops short only when every model failed. */
  method DistinctRound(models: seq<string>, initial: map<string, nat>, maxNewTrials: nat, attempt: Attempts)
    returns (dispatched: nat, allExhausted: bool, tried: seq<string>)
    requires Distinct(models) && initial.Keys == Elems(models)
    ensures Shared(initial, tried, attempt)
    ensures dispatched == QueuedIn(tried, attempt) && dispatched <= maxNewTrials
    ensures forall m :: m in tried ==> m in models
    ensures allExhausted <==> FailedIn(tried, attempt) == Elems(models)
    ensures dispatched == maxNewTrials || allExhausted
  {
    var r;
    r, tried := DispatchRoundRobin(models, initial, maxNewTrials, attempt);
    FairIsShared(initial, r.allocation, tried, attempt);
    dispatched := r.dispatched;
    allExhausted := |r.exhausted| == |models|;
    if |r.exhausted| >= |models| {
      NoneIsLeft(models, r.exhausted);
    }
    ElemsSize(models);
    forall m | m in tried ensures m in models {
      assert m in Elems(tried);
    }
  }

  datatype Stop = KeepsTicking | Deactivated

  datatype TickResult = TickResult(stop: Stop, dispatched: nat)

  /** runUntilHeldTick, given the models held and the trials in flight on the others. */
  method UntilHeldTick(models: seq<string>, held: set<string>, inFlight: seq<(string, nat)>, maxBatch: nat,
                       maxInFlight: nat, initial: map<string, nat>, attempt: Attempts)
    returns (t: TickResult, tried: seq<string>)
    requires Distinct(models) && initial.Keys == Elems(Without(models, held))
    ensures t.dispatched == QueuedIn(tried, attempt) && t.dispatched <= maxBatch
    ensures t.dispatched > 0 ==> Total(inFlight) + t.dispatched <= maxInFlight
    ensures forall m :: m in tried ==> m in models && m !in held
    ensures Shared(initial, tried, attempt)
    ensures t.stop == Deactivated <==> FailedIn(tried, attempt) == Elems(Without(models, held))
    ensures Total(inFlight) >= maxInFlight ==> tried == []
    ensures Total(inFlight) < maxInFlight ==>
              t.dispatched == Min(maxBatch, maxInFlight - Total(inFlight)) || t.stop == Deactivated
  {
    tried := [];
    var eligible := Without(models, held);
    WithoutMeans(models, held);
    var inFlightTotal := CountInFlight(inFlight);
    if eligible == [] {
      return TickResult(Deactivated, 0), tried;
    }
    assert eligible[0] in Elems(eligible);
    if inFlightTotal >= maxInFlight {
      return TickResult(KeepsTicking, 0), tried;
    }
    var dispatched, allExhausted;
    dispatched, allExhausted, tried :=
      DistinctRound(eligible, initial, Min(maxBatch, maxInFlight - inFlightTotal), attempt);
    t := TickResult(if allExhausted then Deactivated else KeepsTicking, dispatched);
  }

  /** Calls logged today plus the estimate for some trials. */
  function CallsWith(callsToday: nat, trials: nat, perTrial: nat): nat {
    callsToday + trials * perTrial
  }

  lemma ScaleLeq(a: nat, b: nat, c: nat)
    requires a <= b
    ensures a * c <= b * c
  {
    assert b * c - a * c == (b - a) * c;
  }

  /** Dividing what is left rounds down to exactly the trials that still fit. */
  lemma AffordableExactly(callsToday: nat, inFlight: nat, perTrial: nat, budget: nat, n: nat)
    requires perTrial > 0 && CallsWith(callsToday, inFlight, perTrial) <= budget
    ensures n <= (budget - CallsWith(callsToday, inFlight, perTrial)) / perTrial
            <==> CallsWith(callsToday, inFlight + n, perTrial) <= budget
  {
    var left := budget - CallsWith(callsToday, inFlight, perTrial);
    var q := left / perTrial;
    assert left == q * perTrial + left % perTrial;
    assert (inFlight + n) * perTrial == inFlight * perTrial + n * perTrial;
    if n <= q {
      ScaleLeq(n, q, perTrial);
    } else {
      ScaleLeq(q + 1, n, perTrial);
      assert (q + 1) * perTrial == q * perTrial + perTrial;
    }
  }

  /**
   How many trials an account-budget tick may queue: all of them stay in the budget
   and under the cap, and one more would break one of the three limits.
   */
  method AffordableTrials(budget: nat, callsPerTrial: nat, callsToday: nat, inFlight: nat, maxBatch: nat,
                          maxInFlight: nat) returns (maxNewTrials: nat)
    requires callsPerTrial > 0 && CallsWith(callsToday, inFlight, callsPerTrial) <= budget && inFlight <= maxInFlight
    ensures maxNewTrials <= maxBatch && inFlight + maxNewTrials <= maxInFlight
    ensures CallsWith(callsToday, inFlight + maxNewTrials, callsPerTrial) <= budget
    ensures maxNewTrials == maxBatch || inFlight + maxNewTrials == maxInFlight
            || CallsWith(callsToday, inFlight + (maxNewTrials + 1), callsPerTrial) > budget
  {
    var callsRemaining := budget - CallsWith(callsToday, inFlight, callsPerTrial);
    var trialsAffordable := callsRemaining / callsPerTrial;
    maxNewTrials := Min(Min(maxBatch, maxInFlight - inFlight), trialsAffordable);
    AffordableExactly(callsToday, inFlight, callsPerTrial, budget, maxNewTrials);
    AffordableExactly(callsToday, inFlight, callsPerTrial, budget, maxNewTrials + 1);
  }

  /** runAccountBudgetTick: calls logged today, plus an estimate for every trial in flight, against a daily budget. */
  method AccountBudgetTick(models: seq<string>, heldReason: Option<string>, budget: nat, callsPerTrial: nat,
                           callsToday: nat, inFlight: seq<(string, nat)>, maxBatch: nat, maxInFlight: nat,
                           initial: map<string, nat>, attempt: Attempts)
    returns (t: TickResult, tried: seq<string>)
    requires Distinct(models) && initial.Keys == Elems(models) && callsPerTrial > 0
    ensures t.dispatched == QueuedIn(tried, attempt) && t.dispatched <= maxBatch
    ensures t.dispatched > 0 ==>
              && heldReason.None?
              && Total(inFlight) + t.dispatched <= maxInFlight
              && CallsWith(callsToday, Total(inFlight) + t.dispatched, callsPerTrial) <= budget
    ensures Shared(initial, tried, attempt)
    ensures t.stop == Deactivated <==>
            || heldReason == Some("daily")
            || (heldReason.None? && (CallsWith(callsToday, Total(inFlight), callsPerTrial) >= budget
                                     || FailedIn(tried, attempt) == Elems(models)))
    ensures heldReason.Some? || CallsWith(callsToday, Total(inFlight), callsPerTrial) >= budget ==> tried == []
    ensures heldReason.None? && t.stop == KeepsTicking ==>
              || t.dispatched == maxBatch || Total(inFlight) + t.dispatched >= maxInFlight
              || CallsWith(callsToday, Total(inFlight) + (t.dispatched + 1), callsPerTrial) > budget
  {
    tried := [];
    if heldReason == Some("daily") {
      return TickResult(Deactivated, 0), tried;
    }
    if heldReason.Some? {
      return TickResult(KeepsTicking, 0), tried;
    }
    if models == [] {
      return TickResult(Deactivated, 0), tried;
    }
    assert models[0] in Elems(models);
    var inFlightTotal := CountInFlight(inFlight);
    if CallsWith(callsToday, inFlightTotal, callsPerTrial) >= budget {
      return TickResult(Deactivated, 0), tried;
    }
    if inFlightTotal >= maxInFlight {
      return TickResult(KeepsTicking, 0), tried;
    }
    var maxNewTrials := AffordableTrials(budget, callsPerTrial, callsToday, inFlightTotal, maxBatch, maxInFlight);
    if maxNewTrials == 0 {
      return TickResult(KeepsTicking, 0), tried;
    }
    var dispatched, allExhausted;
    dispatched, allExhausted, tried := DistinctRound(models, initial, maxNewTrials, attempt);
    ScaleLeq(inFlightTotal + dispatched, inFlightTotal + maxNewTrials, callsPerTrial);
    t := TickResult(if allExhausted then Deactivated else KeepsTicking, dispatched);
  }
}
